# pgman-proxy: a verified model

pgman-proxy runs next to each PostgreSQL node of a cluster, embeds a NATS server, and keeps the cluster's leadership
lease, status, history and configuration. Most of it is wiring; what is modelled here are the protocols and the text and
stream transformations inside it, each as a Dafny module with the properties its comments and contracts promise.
NATS, JetStream, PostgreSQL and the file system appear as abstract state that atomic steps change.

`dafny verify dfyconfig.toml` checks the whole project.

| module | what it is about |
|---|---|
| `BucketProvisioning` | any number of peers create and tune one shared KV bucket, with attempts cut off and restarted anywhere |
| `History`, `HistoryQuery` | the history stream: filters, cursors, resuming, pages over a growing stream |
| `Sse`, `WatchTail` | server-sent events printed, cut, parsed and resumed: exactly-once delivery over reconnects |
| `ChaosWorkload` | a writer and a verifier goroutine racing over a counter, a set and a database |
| `Drain`, `LeaseHandover` | the budgeted shutdown, and the leadership lease across nodes that boot, campaign, drain and die |
| `ManagedBlock` | marker-delimited blocks in operator-owned files, as a lens |
| `FanoutQuorum` | broadcast, status aggregation and the two quorum verdicts |
| `AuditGate` | the audit sinks and the gate that shuts mutating operations while one fails |
| `Redactor` | the dump redactor and its correlation table |
| `StoreArchive` | moving a JetStream store of the other mode aside |
| `ReloadDiff` | the change set of a reload |
| `RouteWatcher` | route up and down events |
| `EmitterFilter` | which peer records a broadcast event |
| `Text`, `Options` | lines, trimming, numbers; optional values |

Code that changes things step by step is modelled by methods with loops and by classes, proved against functions or
relations; protocols between several parties are state machines, and their properties hold for every run. Every lemma
turns Dafny's automatic induction off: inductions are written out.

## What does not hold as promised

For each of these one lemma gives the case and another says exactly when the promise does hold.

- A second put into a managed block does not always override the first: a block that already holds the second lines in
  another spelling (say with carriage returns) is left alone by a direct put and respelled by a put that comes after a
  different one (`PutPutCanFail`, `PutPut`).
- A clean end of an event stream inside a frame can hand on what the server never printed. Behind the last value nothing
  is lost (`EofBehindValuesIsWhole`); before it the data is cut under the record's own id, or the id itself is, after which
  the client asks for an id nobody has and hears nothing more (`EofInDataTruncates`, `EofInIdInventsAnId`,
  `CutInIdIsDeaf`). The exact conditions are `EofHandsOnPrinted` for all frames and `EndsWellMeaning` for those that move
  the resume point; exactly-once delivery is stated for all clean ends that meet the latter.
- A history query applies `until` before it looks for its cursor, so a cursor later than `until` is never found
  (`LateCursorIsLost`, `CutOffHidesCursor`).
- With different replica targets the bucket can shrink (`TwoTargetsShrink`, `NeverShrinksIffOneTarget`).
- A node that is shutting down can still gain the lease: if an attempt had passed the gate when its context was cancelled,
  or if a failed startup is torn down, which does not cancel it (`GainsWhileStopping`, `GainsInTeardown`,
  `CanGainMeaning`).
- A draining holder can lose the lease before its Postgres step: a switchover while the Manager still runs, or a storage
  monitor that was at it when the shutdown began (`FencedWhileDraining`, `LeaseIsFreedAfterPostgres`).
- Replies of nodes that are no peers count towards the quorum on both sides of a partition, and two of them are enough
  to break it (`TwoStrangersSplit`, `SafeUpToOneStranger`).
- A reload that only brings a new certificate has an empty diff (`NewCertificateIsUnseen`, `EmptyDiffIsNoChange`).
- A snapshot that names a peer twice while it is unknown gives two up events in a row (`TwoUpsInARow`,
  `EventsAlternate`).
- Two identities whose hash prefixes and buckets coincide share a placeholder, and the table keeps one of them
  (`CollidingDumpIsUnreadable`, `DumpIsReadable`; for all orders of the fields `ReadableInAnyOrder`).

Where code and comments disagree the model follows the code: the header of `internal/control/audit.go` says a record is on
the sinks before the engine runs, but the engine runs first and is audited after. Also followed as written: the reconnect
loop of `internal/pgmctl/watch/sse.go` never resets its attempt count or its delay, however long a connection lasted.

## Assumptions

- `BucketProvisioning`: one replica target for all peers, except where different ones are the point; a request that timed
  out takes effect before the next attempt starts or never; create and update may set AllowDirect either way.
- `WatchTail`: record ids are unique and the record a client resumes from is still retained; the payload of a frame is one
  line of JSON.
- `ChaosWorkload`: a Range over the shared map returns any set between its contents at the start and at the end; a write
  reported as failed may still commit, then or later.
- `LeaseHandover`: there is one lease; it is renewed until its handle is closed, the Manager resigns it or the process
  dies; an attempt is decided before the gate is asked again, and none succeeds on a closed handle; a successful fast stop
  ships the WAL.
- `FanoutQuorum`: the peer list has no repetitions; a payload that carries a name carries the sender's.
- `AuditGate`: requests one after the other, at most one record each; a record always encodes, being made of strings and
  integers.
- `EmitterFilter`: each event reaches each of the distinct peers once; every publish succeeds, except where failing ones
  are the point.

## Model

| member | source | states |
|---|---|---|
| `BucketProvisioning.StepPreservesInv` | internal/embedded/bucket.go:155-248 | every step of every peer, cut off or not, keeps the inductive invariant of the shared bucket |
| `BucketProvisioning.ReplicasNeverDecrease` | internal/embedded/bucket.go:155-248 | in every run of any number of peers with one target, over every interleaving and restart, the bucket never disappears and its replica count never shrinks |
| `BucketProvisioning.AboveTargetIsNeverTouched` | internal/embedded/bucket.go:183-190 | a bucket that starts above the target is the same at every point of every run |
| `BucketProvisioning.PastStatusSeesTarget` | internal/embedded/bucket.go:183-247 | from its status check to the end of the run a peer sent on to update sees the target or less, one past it the target only, and the stream config it cached has the target |
| `BucketProvisioning.WritesLeaveTarget` | internal/embedded/bucket.go:162-244 | whatever step changes the bucket leaves the target, and found it absent or at most at the target |
| `BucketProvisioning.AllSucceededMeansProvisioned` | internal/embedded/bucket.go:124-248 | once every peer has returned success, the bucket has the target replicas and AllowDirect is false |
| `BucketProvisioning.OneTargetNeverShrinks` | internal/embedded/bucket.go:155-248 | where the targets of all peers agree, no run shrinks the bucket |
| `BucketProvisioning.TwoTargetsShrink` | internal/embedded/bucket.go:183-244 | for any two peers with different targets, a run of the machine in which the bucket shrinks: the one wanting less writes its cached stream config back over the raised one |
| `BucketProvisioning.NeverShrinksIffOneTarget` | internal/embedded/bucket.go:155-248 | with a target per peer, replicas never decrease in any run if and only if all targets are the same |
| `BucketProvisioning.StepObeysRely` | internal/embedded/bucket.go:155-248 | what one peer may do to the bucket is within what the others rely on |
| `BucketProvisioning.TryPreCreate` | internal/embedded/bucket.go:155-248 | one attempt, with the other peers moving before every request and a cut-off at any of them, is a path of the machine; it returns success only with the bucket provisioned, and does so whenever no request is cut off and nobody has put the bucket above the target |
| `BucketProvisioning.FindOrCreate` | internal/embedded/bucket.go:156-177 | look-up, create, and re-fetch when the create lost the race: each a step of the machine; it succeeds unless one of the three is cut off |
| `BucketProvisioning.TuneReplicas` | internal/embedded/bucket.go:179-202 | status check and update: each a step of the machine; it succeeds unless cut off or the bucket is above the target |
| `BucketProvisioning.TuneReads` | internal/embedded/bucket.go:225-247 | stream fetch and the update that turns AllowDirect off: each a step of the machine; it succeeds unless cut off |
| `BucketProvisioning.PreCreateClusterKV` | internal/embedded/bucket.go:98-141 | a bad replica count is refused untouched; the retry loop only ever does to the bucket what a peer may, reports success only with the bucket provisioned and never touches a bucket above the target; a bucket not above it is provisioned as soon as the budget has room for one attempt without a cut-off |
| `History.MatchesGrow` | internal/history/watcher.go:112-161 | appending to the log only extends what a reader is due |
| `History.MatchesStep` | internal/history/query.go:110-138 | what one more message adds to the filtered stream: its record, if it decodes, is on the category's subject, not after Until, and its type and node are among those asked for, if any are; types compare without case |
| `History.MatchesMeaning` | internal/history/query.go:110-138 | a record is in the filtered stream if and only if it is stored and fits in that sense |
| `History.DueFits` | internal/history/query.go:119-133 | and whatever the cursor, only such records come behind it |
| `History.ResumeAfter` | internal/history/watcher.go:112-161 | resuming after the i-th wanted record gives exactly the wanted records behind it |
| `History.RetentionIsHarmless` | internal/history/watcher.go:112-135 | dropping old records the cursor does not name changes nothing after the cursor |
| `History.Resume` | internal/history/watcher.go:82-161 | a reader that comes back with the id of a record it was due, on any later log that still holds it, is due exactly what followed |
| `HistoryQuery.Run` | internal/history/query.go:90-148 | for every sequence of fetches the page is the first records due among the messages heard, with its cursor and truncation flag, and an error is returned only if the page was not full by then; every event was heard and fits the query field by field, and without a cursor an untruncated page has every message heard that fits |
| `HistoryQuery.Limit` | internal/history/query.go:44-46 | a positive limit is kept, anything else means 1000 |
| `HistoryQuery.EndsInErrorMeaning` | internal/history/query.go:95-142 | fetching ends in an error exactly when some fetch failed and every one before it brought messages |
| `HistoryQuery.Assemble` | internal/history/query.go:90-148 | the loop over the fetches, against what is due among the messages heard |
| `HistoryQuery.Absorb` | internal/history/query.go:110-138 | the loop over one batch: cursor skip, filters and limit keep page and rest together equal to what is due |
| `HistoryQuery.AnySplitHearsAll` | internal/history/query.go:95-142 | however a stream is split into batches, all of it is heard and no error ends it |
| `HistoryQuery.HeardUntilEnd` | internal/history/query.go:95-142 | what was heard before a fetch that failed or brought nothing counts, and it is an error exactly if it failed |
| `HistoryQuery.SplitsAnswerDue` | internal/history/query.go:90-142 | for every split into fetches Run answers from exactly what is due on the log |
| `HistoryQuery.CutOffHidesCursor` | internal/history/query.go:119-127 | because Until is applied before the cursor test, resuming after a record gives the matches behind it if and only if the record is not after Until or there are none |
| `HistoryQuery.DueAfterCursor` | internal/history/query.go:119-127 | what a cursor naming any record of the log leads to: the matches behind it, or nothing if it is after Until |
| `HistoryQuery.LateCursorIsLost` | internal/history/query.go:119-127 | a cursor later than Until with a match behind it: nothing is returned |
| `HistoryQuery.OrderedTimesLoseNothing` | internal/history/query.go:119-127 | where times never go back along the log, nothing is lost |
| `HistoryQuery.Walk` | internal/history/query.go:37-149 | calling Run again with each next cursor, over any split into fetches and a growing log, makes a walk |
| `HistoryQuery.WalkReturnsTheStream` | internal/history/query.go:37-149 | walking next cursors until a page is not truncated, over a stream that grows meanwhile, returns exactly the filtered stream after the first cursor, nothing twice and nothing missed |
| `HistoryQuery.FetchPage` | internal/history/query.go:37-149 | one call of Run, over any split of the stream into fetches, answers with the page of what is due on the log |
| `HistoryQuery.ReadAll` | internal/history/query.go:37-149 | what those calls of Run collect until a page is not truncated is exactly the filtered stream at the time of the last |
| `HistoryQuery.WalkLength` | internal/history/query.go:44-46 | over a fixed stream of n matches the walk takes n / limit + 1 pages |
| `Sse.ParseSSE` | internal/pgmctl/watch/sse.go:65-114 | the line-by-line loop over the bytes yields the frames of the specification function, for a clean end and for an error |
| `Sse.ParsePrinted` | internal/control/handlers_watch.go:301-322 | parsing everything the server printed, keepalives between frames included, returns exactly the printed frames |
| `Sse.PrintedText` | internal/control/handlers_watch.go:301-322 | the bytes of a frame: event line, id line if there is an id, data line, blank line; and of a keepalive |
| `Sse.ParseBroken` | internal/pgmctl/watch/sse.go:65-114 | cut anywhere with an error, exactly the frames whose terminating blank line arrived are handed on |
| `Sse.ArrivedIsTight` | internal/pgmctl/watch/sse.go:65-114 | the frames counted as arrived are exactly those whose last byte did |
| `Sse.SurvivesIffPrintable` | internal/control/handlers_watch.go:301-322 | a frame survives printing and parsing if and only if its fields have no line break and no outer white space and it is not empty |
| `Sse.ParseYieldsPrintable` | internal/pgmctl/watch/sse.go:65-114 | whatever bytes arrive, every parsed frame is one that would survive being printed again |
| `Sse.ParseEof` | internal/pgmctl/watch/sse.go:96-109 | a clean end hands on just the frames that arrived whole if and only if it does not fall inside a frame of which a character of the name or of the data is there |
| `Sse.CleanEnd` | internal/pgmctl/watch/sse.go:65-114 | for every cut: a clean end hands on the frames that arrived whole and, of a frame under way, each value as far as it got, trimmed |
| `Sse.EofHandsOnPrinted` | internal/pgmctl/watch/sse.go:96-109 | everything handed on at a clean end is what the server printed, in order, if and only if, besides, a frame under way may lack nothing but empty values and newlines |
| `Sse.SeenMeaning` | internal/pgmctl/watch/sse.go:96-109 | when what is seen of a cut frame is handed on, when it is the frame, and when it has an id |
| `Sse.EofBehindValuesIsWhole` | internal/pgmctl/watch/sse.go:96-109 | with only closing newlines missing the whole frame is handed on under its own id |
| `Sse.EofInDataTruncates` | internal/pgmctl/watch/sse.go:96-109 | a clean end between the id and the end of the data hands on other data under the id the client will resume after |
| `Sse.EofInIdInventsAnId` | internal/pgmctl/watch/sse.go:96-109 | a clean end inside the id hands on a frame without data under a shorter id |
| `WatchTail.Watch` | internal/history/watcher.go:112-161 | the watcher hands on exactly the wanted records after the cursor among the messages delivered to it |
| `WatchTail.HandleWatch` | internal/control/handlers_watch.go:188-255 | whatever becomes ready in whatever order, the handler returns at the first thing that ends it; until then it wrote one frame for each event that became ready, in order and from the first, and one keepalive for each that was due, and then the error or gap frame of an end that has one, and nothing else |
| `WatchTail.ServeConnection` | internal/control/handlers_watch.go:188-255 | the subscription and the write loop together serve a connection as the delivery theorems need it, wherever it is cut with an error, and with a clean end if and only if that ends well; a handler that had time for all events and a connection that is not cut deliver everything that was due |
| `WatchTail.ClosingFrameIsPrintable` | internal/control/handlers_watch.go:329-361 | gap markers and error frames have their names and payload, carry no id and survive printing |
| `WatchTail.EndsWellMeaning` | internal/pgmctl/watch/sse.go:96-109 | the frames with an id handed on at a clean end are ones the server printed if and only if it does not fall between the first character of an id and the last one of that frame's values |
| `WatchTail.ReceivesAPrefix` | internal/pgmctl/watch/sse.go:65-114 | the identified frames a client gets on one connection, however it ends, are a first part of what was due on it |
| `WatchTail.DeliveredExactlyOnce` | internal/pgmctl/watch/sse.go:164-266 | over any number of connections, cut anywhere with an error or with clean ends that end well, the records delivered from the first on are a contiguous, ordered run of the filtered stream and no id comes twice |
| `WatchTail.DeliveredAsSent` | internal/control/handlers_watch.go:301-322 | each delivered frame carries the topic's name, the id and the encoding of its record, which is stored and fits the filter |
| `WatchTail.TakeConnection` | internal/pgmctl/watch/sse.go:214-266 | parsing and piping one connection moves the client as the delivery theorems have it |
| `WatchTail.ConnectOnce` | internal/pgmctl/watch/sse.go:178-192 | one request, what the server makes of it, the cut, and what the client makes of that; uncut and with time for all events, the client has everything |
| `WatchTail.WatchThrough` | internal/pgmctl/watch/sse.go:164-266 | end to end through the loops of server and client, connection after connection, whatever the cuts: if every clean end ended well, the same; and if the last connection was uncut and had time for all events, the client has the filtered stream to its end |
| `WatchTail.SeedIsResumed` | internal/pgmctl/watch/sse.go:164-216 | a run seeded with the id of a wanted record delivers exactly from the next record on |
| `WatchTail.AbsentSeedIsDeaf` | internal/history/watcher.go:112-161 | a client that resumes behind an id no record has gets no record on any later connection |
| `WatchTail.CutInIdIsDeaf` | internal/pgmctl/watch/sse.go:96-109 | a clean end inside the id of a record's frame leaves a client in that state for ever |
| `WatchTail.Tail` | internal/pgmctl/watch/sse.go:164-216 | the reconnect loop leaves the client where that many connections leave it, makes at most max attempts + 1 of them, and waits the back-off sequence |
| `WatchTail.BackoffIsBounded` | internal/pgmctl/watch/sse.go:204-212 | every wait but the first is at most the cap, for every policy |
| `WatchTail.WaitsArePowers` | internal/pgmctl/watch/sse.go:204-212 | with a whole factor and a base within the cap, the k-th wait is the base times the k-th power of the factor, or the cap if that is less |
| `WatchTail.DefaultsInForce` | internal/pgmctl/watch/sse.go:126-134 | without a base: 250 ms, doubled, up to 10 s, 30 attempts |
| `WatchTail.NeverShrinkMeaning` | internal/pgmctl/watch/sse.go:164-212 | waits never shrink if and only if the factor in force is at least one and the base at most the cap |
| `WatchTail.PipeFrames` | internal/pgmctl/watch/sse.go:246-266 | the id to resume from is that of the last frame that carried one |
| `ChaosWorkload.StepKeepsWriterInv` | cmd/chaos-workload/main.go:171-216 | every step keeps what is known of counter, acknowledged and abandoned writes |
| `ChaosWorkload.StepKeepsVerifierInv` | cmd/chaos-workload/main.go:241-338 | every step keeps what is known of a sweep in progress |
| `ChaosWorkload.SnapshotIsBelowMax` | cmd/chaos-workload/main.go:251-297 | in every interleaving every snapshotted number is at most the maximum loaded after it |
| `ChaosWorkload.NoLossNoReport` | cmd/chaos-workload/main.go:297-338 | if committed rows are never lost, no sweep of any run reports a loss |
| `ChaosWorkload.ExtrasAreBounded` | cmd/chaos-workload/main.go:363-382 | extras never exceed the committed writes the writer gave up on plus one in flight |
| `ChaosWorkload.MissingIsFromScratch` | cmd/chaos-workload/main.go:297-325 | after every sweep the set kept incrementally is the set that sweep alone would find |
| `ChaosWorkload.ReportsAlternate` | cmd/chaos-workload/main.go:398-412 | over a whole run the loss and resolved reports about each number alternate, loss first, and the last one says whether it is still missing |
| `ChaosWorkload.FinalizeVerifyDiff` | cmd/chaos-workload/main.go:363-382 | lists each missing number once and counts the rows read that no Range returned |
| `ChaosWorkload.Verifier.UpdateMissingSet` | cmd/chaos-workload/main.go:398-412 | the two passes give the new rolling set and list what is newly missing and what was resolved, each once |
| `ChaosWorkload.Verifier.CompleteSweep` | cmd/chaos-workload/main.go:297-338 | what one sweep reports and keeps |
| `Drain.BuildShutdownSteps` | cmd/pgman-proxy/main.go:271-382 | the list holds exactly the steps for what was built, in the order of the shutdown contract, with one unsubscribe step per subscription |
| `Drain.PlanMeaning` | cmd/pgman-proxy/main.go:271-382 | which resource each step of such a list stands for, and that no step comes before one it must follow |
| `Drain.RunDrain` | internal/runtime/shutdown.go:94-132 | the loop executes the specification, collects exactly the non-context errors, and reports a timeout exactly for a skipped or degraded step |
| `Drain.DrainRunsAPrefix` | internal/runtime/shutdown.go:94-132 | a first part of the steps runs, each started with time left, and the rest is skipped only when none is |
| `Drain.ExitCodeMeaning` | internal/runtime/shutdown.go:71-88 | exit 0 exactly when no step was skipped, degraded or returned a non-context error; the internal code exactly when one returned such an error |
| `Drain.ProcessExit` | cmd/pgman-proxy/main.go:223-255 | the manager's own failure decides the exit code, and the drain only if there is none |
| `Drain.FastStopWindow` | internal/runtime/postgres_stop.go:107-113 | what is left after the two reserves, five seconds together, and one second at least |
| `Drain.StopPostgres` | internal/runtime/postgres_stop.go:57-101 | fast mode is reported exactly when Postgres runs or cannot be asked and the fast stop works, immediate mode exactly when that fails and the immediate stop works; the former is clean, the latter degraded, neither an error; and the time left |
| `Drain.EscalationShows` | internal/runtime/shutdown.go:71-132 | a drain whose Postgres step used immediate mode or did not succeed never exits 0: the timeout code when only that went wrong, the internal code when neither mode worked |
| `Drain.TailReserveIsExact` | internal/runtime/postgres_stop.go:20-31 | the tail steps are sure of 3 s, whatever Postgres does within its deadlines, if and only if at least 6 s remain after IsRunning |
| `LeaseHandover.BootWindowGate.Allow` | internal/runtime/campaign_gate.go:28-115 | open exactly for a complete directory, closed on an inspection error; logs exactly when the reason changes, and that reason |
| `LeaseHandover.NextKeepsInv` | cmd/pgman-proxy/main.go:271-382 | every step of every node keeps the cluster invariant |
| `LeaseHandover.EarlierHasRun` | cmd/pgman-proxy/main.go:271-382 | when a later drain step has run, every planned earlier one has |
| `LeaseHandover.WhoGainsTheLease` | internal/runtime/campaign_gate.go:60-68 | whoever gains the lease passed the gate before, in the same process and with no other attempt in between; at that moment it was not shutting down and, in its boot window, had a complete data directory |
| `LeaseHandover.ClearedMeaning` | internal/runtime/start.go:185-194 | a node may attempt the lease exactly while an attempt that passed the gate is pending |
| `LeaseHandover.CanGainMeaning` | internal/runtime/start.go:175-194 | from the end of any run, a live process without the lease can still come to hold it if and only if its handle is open and its context is not cancelled or an attempt of its own had passed the gate before |
| `LeaseHandover.ShutOutForGood` | internal/runtime/campaign_gate.go:45-52 | a cancelled process with nothing pending, or one with a closed handle, never gains the lease for the rest of its life |
| `LeaseHandover.GainsWhileStopping` | internal/runtime/start.go:186-194 | a run in which a node passes the gate, begins its shutdown and then gains the lease |
| `LeaseHandover.GainsInTeardown` | cmd/pgman-proxy/main.go:165-172 | a run in which a failed startup is torn down with its context not cancelled, passes the gate and gains the lease |
| `LeaseHandover.DrainingHolderKeepsLease` | cmd/pgman-proxy/main.go:307-367 | while its process lives, a draining holder is without the lease if and only if its cluster step has run, or it has let go itself, by a switchover or a self-fence, and not gained it again |
| `LeaseHandover.LetGoForGood` | internal/runtime/campaign_gate.go:45-52 | cancelled and with nothing pending, it does not gain it again |
| `LeaseHandover.LeaseIsFreedAfterPostgres` | cmd/pgman-proxy/main.go:307-367 | a draining primary is without the lease before its Postgres step returned if and only if it let go before that itself |
| `LeaseHandover.NextHolderFindsAllWal` | cmd/pgman-proxy/main.go:307-367 | if it let go no earlier than that, then once it is without the lease its Postgres step has returned and, after a successful fast stop, Postgres is down and all its WAL shipped: what the next holder finds |
| `LeaseHandover.FencedWhileDraining` | internal/runtime/start.go:240-253 | a run in which the storage monitor fences a draining primary before its Postgres step |
| `LeaseHandover.FastStopStaysComplete` | internal/runtime/postgres_stop.go:57-101 | after a successful fast stop the node writes no more WAL, so the next holder finds everything shipped |
| `ManagedBlock.Scan` | internal/runtime/managed_block.go:57-79 | the scan finds the block, its absence or malformed markers exactly as declaratively defined |
| `ManagedBlock.Locate` | internal/runtime/managed_block.go:62-79 | absent iff no marker; malformed iff there are markers but not one begin followed by one end |
| `ManagedBlock.Splice` | internal/runtime/managed_block.go:81-111 | the rewrite computes the specified content and action |
| `ManagedBlock.ActionMeaning` | internal/runtime/managed_block.go:86-111 | inserted, updated, removed and unchanged, each if and only if, by what the file held; a new block goes behind all there is |
| `ManagedBlock.ApplyManagedBlock` | internal/runtime/managed_block.go:49-116 | applied if and only if the file can be read, its markers are well formed and a write that is needed works; then it has the specified content; every error leaves it as it was, and unchanged content is not written |
| `ManagedBlock.FileIsItsPieces` | internal/runtime/managed_block.go:57-61 | a file is the text before the block, the block and the text behind it, byte for byte |
| `ManagedBlock.ReadYieldsGoodLines` | internal/runtime/managed_block.go:99-102 | what is read from any block is lines that could have been put there |
| `ManagedBlock.PutThenGet` | internal/runtime/managed_block.go:49-116 | reading back what was put gives the lines, if and only if they are newline-free, marker-free and do not end in a carriage return |
| `ManagedBlock.RemoveThenGet` | internal/runtime/managed_block.go:49-116 | after putting no lines there is no block |
| `ManagedBlock.PutIsIdempotent` | internal/runtime/managed_block.go:103-105 | putting the same lines again is Unchanged |
| `ManagedBlock.PutKeepsSurroundings` | internal/runtime/managed_block.go:92-106 | every byte before and behind the block survives |
| `ManagedBlock.PutPut` | internal/runtime/managed_block.go:49-116 | a second put overrides the first if and only if the file did not already hold the second lines in another spelling |
| `ManagedBlock.PutPutCanFail` | internal/runtime/managed_block.go:49-116 | a block saved with carriage returns: the case in which it does not |
| `ManagedBlock.InsertThenRemove` | internal/runtime/managed_block.go:49-116 | inserting and removing restores the file up to one final newline |
| `ManagedBlock.GoodNamesMakeGoodMarkers` | internal/runtime/managed_block.go:37-39 | a name without newline and trailing blank gives markers the laws hold for |
| `ManagedBlock.BothNamesAreGood` | internal/runtime/managed_block.go:37-39 | the two names in use do |
| `ManagedBlock.ApplyManagedConf` | internal/runtime/managed_block.go:167-187 | succeeds if and only if both files apply; postgresql.conf first, pg_hba.conf only if that worked; each file has the specified content, and the change list names exactly what was done to each |
| `FanoutQuorum.Gather` | internal/fanout/client.go:90-125 | the receive loop keeps the first reply of each node until the deadline or until enough nodes answered |
| `FanoutQuorum.Broadcast` | internal/fanout/client.go:90-145 | the replies read and then a failed one for each expected node missing |
| `FanoutQuorum.FirstRepliesAreFirst` | internal/fanout/client.go:111-119 | a reply is kept if and only if it is the first of its sender |
| `FanoutQuorum.EachExpectedNodeOnce` | internal/fanout/client.go:90-145 | for every arrival sequence each expected node, and each other node that answered, is in the result exactly once |
| `FanoutQuorum.Collect` | internal/runtime/aggregator.go:208-234 | one decoded reply per reply, named by its payload when that has a name |
| `FanoutQuorum.ShownAs` | internal/runtime/aggregator.go:137-160 | how a reply is shown: a real answer with what it says of itself, up if reachable and in no failed state, anything else as unknown and down |
| `FanoutQuorum.EnrichStatus` | internal/runtime/aggregator.go:123-180 | one instance per reply; the primary is the local one or the first peer that claims it; the standbys lose exactly the primary |
| `FanoutQuorum.WithoutRemoves` | internal/runtime/aggregator.go:167-178 | dropping a node removes all its copies and nothing else |
| `FanoutQuorum.WithoutKeepsOrder` | internal/runtime/aggregator.go:167-178 | and keeps the order |
| `FanoutQuorum.ClusterStatus` | internal/runtime/aggregator.go:123-180 | broadcast, decoding and enrichment together |
| `FanoutQuorum.OneInstancePerPeer` | internal/runtime/aggregator.go:123-180 | the status shows each peer and each stranger that answered exactly once |
| `FanoutQuorum.StateNamesTell` | internal/pgmctl/cmd/status.go:465-477 | of all state ordinals, known or not, only Unknown reads as no answer and only Running as running |
| `FanoutQuorum.CheckClusterQuorum` | internal/control/doctor_checks.go:297-322 | passes exactly on a strict majority of real answers; Unknown exactly for an empty status |
| `FanoutQuorum.PeerCounts` | internal/pgmctl/cmd/status.go:465-477 | counts the real answers, the healthy peers and all |
| `FanoutQuorum.HealthyCount` | internal/pgmctl/cmd/status.go:465-477 | healthy is the number of rows that are up and running |
| `FanoutQuorum.ComputeSubstrateQuorum` | internal/pgmctl/cmd/status.go:297-308 | quorate exactly on a strict majority of a non-empty cluster; required is the least such majority |
| `FanoutQuorum.BothVerdicts` | internal/pgmctl/cmd/status.go:283-308 | the doctor and pgmctl agree on every status, and beliefs are stale exactly when the doctor fails the cluster |
| `FanoutQuorum.RespondingMeaning` | internal/runtime/aggregator.go:208-234 | a node counts as responding if and only if its first reply is a real answer |
| `FanoutQuorum.QuorateMeaning` | internal/control/doctor_checks.go:297-322 | the verdict in terms of answering peers, answering strangers and strangers shown, for all arrivals |
| `FanoutQuorum.QuorateIsMajority` | internal/control/doctor_checks.go:297-322 | with replies from peers only, quorate is a majority of the peers |
| `FanoutQuorum.NoSplitQuorum` | internal/pgmctl/cmd/status.go:297-308 | two observers that hear from disjoint sets of peers, and from nobody else, are never both judged quorate |
| `FanoutQuorum.SplitTakesTwoStrangers` | internal/pgmctl/cmd/status.go:297-308 | if two observers that hear from no peer in common are both judged quorate, at least two strangers are shown |
| `FanoutQuorum.LonePeerIsSafe` | internal/fanout/client.go:99-125 | in a cluster of one peer that never happens |
| `FanoutQuorum.RunningVerdict` | internal/pgmctl/cmd/status.go:297-308 | the exact verdict when any set of peers and strangers answers |
| `FanoutQuorum.TwoStrangersSplit` | internal/fanout/client.go:99-125 | in every larger cluster two strangers are enough |
| `FanoutQuorum.SafeUpToOneStranger` | internal/pgmctl/cmd/status.go:297-308 | partition safety with at most n strangers shown holds if and only if n is at most one or there is one peer |
| `AuditGate.Audit.constructor` | internal/control/audit.go:72-79 | a new emitter is healthy |
| `AuditGate.Audit.Emit` | internal/control/audit.go:94-147 | the new counters; success exactly when every wired sink has the record; a failed record leaves the gate shut |
| `AuditGate.OpenIffLastRecorded` | internal/control/audit.go:207-213 | after any run of records Healthy holds if and only if there was none or the last one reached every wired sink |
| `AuditGate.Decide` | internal/control/server.go:384-437 | a mutation is let through only by an open gate, over HTTP only with credentials that verify and forwarded only at the leader; the gate refuses only mutations and only when shut |
| `AuditGate.DecideMeaning` | internal/control/server.go:384-437 | each outcome if and only if: a mutation needs credentials that verify whatever the setting, a read unless reads are let in without; then the gate, then the leader, then the operation itself |
| `AuditGate.EmitsMeaning` | internal/control/server.go:384-449 | which requests leave a record: all mutations that are answered, and all reads turned away or audited by their handler |
| `AuditGate.Server.Refuse` | internal/control/server.go:466-475 | a refusal leaves a record |
| `AuditGate.Server.Wrap` | internal/control/server.go:349-449 | the outcome, the record and the engine call of one HTTP request; the engine is reached only by who may ask, and by a mutation only with credentials that verify and a healthy audit |
| `AuditGate.Server.HandleForwarded` | internal/control/responder.go:150-215 | the same for an operation another peer handed on |
| `AuditGate.MutationsFollowRecords` | internal/control/server.go:398-403 | in every run a mutation reaches the engine only if the last record before it reached every sink, and the gate refuses only if it did not |
| `AuditGate.MutationsAreAuthenticated` | internal/control/server.go:384-396 | in every run an HTTP mutation that reaches the engine has credentials that verify, and a forwarded one reaches it only at the leader |
| `AuditGate.RecordBetweenMutations` | internal/control/server.go:398-403 | between two mutations the first of which was not recorded, some request was recorded on every sink |
| `AuditGate.AtMostOneRefused` | internal/control/server.go:466-475 | once the sinks are up the gate refuses at most one request |
| `Redactor.Walker.constructor` | internal/pgmctl/dump/redact.go:67-73 | a new redactor has an empty, consistent table |
| `Redactor.Walker.PlaceholderFor` | internal/pgmctl/dump/redact.go:145-156 | an identity keeps the placeholder of its first meeting for ever and the two maps stay linked, collisions or not |
| `Redactor.Walker.ScrubString` | internal/pgmctl/dump/redact.go:128-140 | what becomes of one string and of the table |
| `Redactor.Walker.Walk` | internal/pgmctl/dump/redact.go:95-114 | the output is a function of the tree and the table alone, so equal identities get equal placeholders; the table grows by exactly the identities in the tree |
| `Redactor.NormalMeetsNobody` | internal/pgmctl/dump/redact.go:135-137 | in normal mode a walk meets no identity, so the table stays as it is |
| `Redactor.Walker.ApplyAll` | internal/pgmctl/dump/redact.go:88-93 | any sequence of trees: all outputs are determined by the table at the end, and each is its tree with every secret masked, every identity replaced and all other text scrubbed |
| `Redactor.ImageIsRedacted` | internal/pgmctl/dump/redact.go:95-140 | what an output has at each node: the same constant for a secret key, a placeholder of bucket and hash for an identity, scrubbed text elsewhere |
| `Redactor.BucketMeaning` | internal/pgmctl/dump/redact.go:158-172 | the bucket of a key by the words in it, in order of precedence |
| `Redactor.ImageIsStable` | internal/pgmctl/dump/redact.go:145-156 | later entries of the table do not change earlier outputs |
| `Redactor.TableRecovers` | internal/pgmctl/dump/redact.go:145-156 | the table recovers every original if and only if no two share a placeholder |
| `Redactor.DistinctHashesSuffice` | internal/pgmctl/dump/redact.go:149-153 | hash prefixes of one length that differ are enough for that |
| `Redactor.ExpandRecovers` | internal/pgmctl/dump/redact.go:95-140 | expanding an output gives back the tree, except at secret keys and scrubbed text, if and only if the table leads each identity in it back to itself |
| `Redactor.CollisionFreeMeaning` | internal/pgmctl/dump/redact.go:145-172 | placeholders differ if and only if no two identities met agree both in hash and in the bucket of the key each was first met under |
| `Redactor.ShapeIsKept` | internal/pgmctl/dump/redact.go:84-114 | node kinds, field names, lengths and all non-strings are kept |
| `Redactor.DumpIsReadable` | internal/pgmctl/dump/redact.go:77-114 | for any sequence of trees every output has its tree's shape, and all expand to their trees but for what is masked if and only if no two identities in them agree in hash and first bucket |
| `Redactor.CollisionLosesOne` | internal/pgmctl/dump/redact.go:149-154 | two identities with one hash in the list under one key are ambiguous |
| `Redactor.CollidingDumpIsUnreadable` | internal/pgmctl/dump/redact.go:149-154 | that dump does not read back |
| `Redactor.ReadableInAnyOrder` | internal/pgmctl/dump/redact.go:97-102 | whatever order the fields are walked in, the dump is readable if no two identities with one hash are met under keys of one bucket; only then, if each identity keeps to one bucket |
| `Redactor.OrderCanDecide` | internal/pgmctl/dump/redact.go:97-102 | an identity under keys of two buckets: one order of the fields is readable and the other is not |
| `StoreArchive.StoreDirectory.ArchiveIncompatibleStore` | internal/embedded/store_layout.go:72-99 | the store moves to the first free candidate name or nothing changes; without I/O errors there is no free name exactly when all 101 candidates exist |
| `StoreArchive.CandidatesDiffer` | internal/embedded/store_layout.go:85-95 | the 101 candidates are different names |
| `StoreArchive.DetectMeaning` | internal/embedded/store_layout.go:39-58 | none, clustered, standalone or an error, each if and only if: a store is there only on disk and clustered exactly if it has a meta group |
| `StoreArchive.ArchiveName` | internal/embedded/store_layout.go:79-95 | the new name says of which mode the store was and when it was moved |
| `StoreArchive.NoMismatchLeft` | internal/embedded/store_layout.go:72-99 | after success no store of the other mode is left |
| `StoreArchive.NextStart` | internal/embedded/store_layout.go:60-99 | a store the server made is kept by the next start in its own mode and moved by one in the other |
| `StoreArchive.RepeatIsNoOp` | internal/embedded/store_layout.go:70-71 | checking again in the same mode moves nothing |
| `StoreArchive.NothingIsLost` | internal/embedded/store_layout.go:60-99 | over any sequence of starts in either mode, with any failures, no entry is lost or overwritten |
| `ReloadDiff.StringSetDiff` | internal/embedded/reload.go:140-158 | the two-index merge computes the specified change set |
| `ReloadDiff.DiffIsDifference` | internal/embedded/reload.go:137-158 | for sorted lists with duplicates the change set is the two multiset differences |
| `ReloadDiff.DiffApplies` | internal/embedded/reload.go:137-158 | old minus removed plus added is new, nothing is both, and both lists are sorted |
| `ReloadDiff.HostsMeaning` | internal/embedded/reload.go:125-135 | a host is listed as many times as there are routes to it |
| `ReloadDiff.ComputeDiff` | internal/embedded/reload.go:55-106 | routes added and removed, password rotation and startup-only keys that differ |
| `ReloadDiff.ChangedKeys` | internal/embedded/reload.go:79-99 | empty exactly when nothing but routes, password and TLS material differs and both or neither have TLS |
| `ReloadDiff.KeyMeaning` | internal/embedded/reload.go:79-99 | a key is listed only if the setting it names differs |
| `ReloadDiff.KeyIsListed` | internal/embedded/reload.go:79-99 | and whenever it does |
| `ReloadDiff.CredentialsAreNoRouteChange` | internal/embedded/reload.go:61-65 | changing only route credentials gives an empty route change |
| `ReloadDiff.EmptyDiffMeaning` | internal/embedded/reload.go:30-106 | the diff is empty if and only if hosts, password and the other compared settings agree and both or neither have TLS |
| `ReloadDiff.EmptyDiffIsNoChange` | internal/embedded/reload.go:76-99 | an empty diff means that nothing changed except exactly when both have TLS, it differs, and nothing else does |
| `ReloadDiff.NewCertificateIsUnseen` | internal/embedded/reload.go:96-98 | any two different certificates on otherwise equal options: an empty diff |
| `RouteWatcher.Watcher.Tick` | internal/embedded/route_watcher.go:79-126 | the events of a tick turn the known peers into those of the snapshot, and say of each peer exactly what changed |
| `RouteWatcher.Watcher.Arrivals` | internal/embedded/route_watcher.go:90-113 | the peers named, and an up event for each naming of an unknown one |
| `RouteWatcher.Watcher.Departures` | internal/embedded/route_watcher.go:114-124 | a down event for each known peer no longer named, in any order |
| `RouteWatcher.Poll` | internal/embedded/route_watcher.go:63-74 | replaying all events of a run from nothing gives the peers of the last snapshot; failed calls leave no trace |
| `RouteWatcher.EventsAlternate` | internal/embedded/route_watcher.go:79-126 | a peer's events alternate, up first, if and only if no snapshot names it twice while unknown |
| `RouteWatcher.TwoUpsInARow` | internal/embedded/route_watcher.go:98-112 | two routes to a new peer in one snapshot: two ups |
| `EmitterFilter.TailIsTopic` | internal/cluster/events.go:258-264 | the type of a record is everything behind the cluster id, dots included |
| `EmitterFilter.HandleCoordinationEvent` | internal/cluster/events.go:182-217 | what one peer publishes for one event |
| `EmitterFilter.PublishedMeaning` | internal/cluster/events.go:182-217 | for an event on a subject of three parts or more: the peer it names, or everybody if it names none, records the topic, and a leader change besides for a transition into or out of leadership |
| `EmitterFilter.RecordedOnce` | internal/cluster/events.go:167-217 | in any order of delivery an event naming a peer is recorded once in the cluster, one naming none once per peer, one naming somebody else never; leadership edges add one leader change each time |
| `EmitterFilter.NeverRecordedTwice` | internal/cluster/events.go:197-217 | whichever publishes fail, the counts are never exceeded, and reached exactly if none of the event's own failed |

## Left out

- Internals of NATS, JetStream, pg-manager, PostgreSQL, TLS, HTTP and the JSON and YAML encodings: libraries; only the effects relied on appear.
- Configuration loading and validation, supervisor detection, bearer authentication: field lists and single checks.
- The pgmctl commands, their rendering and the dump archive, apart from the status counts and the redactor: user interface and plumbing.
- The status watch topic, whose first frame carries the request id, is not part of the exactly-once claim.
- Fan-out to a single node and the configuration setter: not part of the flows modelled.
- The wait for a stream leader and for a responsive JetStream in `internal/embedded/bucket.go`: waiting only.
- Context cancellation and the channels between goroutines, except as the point where a loop stops.
- The bound on parallel requests in `internal/control/responder.go`, and requests in parallel in general.
- Handler panics: their refusal leaves a record like any other refusal.
- The 64-bit width of the audit failure counters, which wrap after 2^64 failures in a row.
- Case folding beyond ASCII letters in type filters.
- A negative back-off base, and the rounding of floating-point products.
- AuditGate.Audit.Emit: leaves out the branch for a record that does not encode, which no record of strings and integers takes.
- The best join-window candidate, the primary count and the other doctor checks: easy members.
- The sorted listing of the correlation table: an easy member.
- The regular expressions and SHA-256 of the redactor are parameters.
- Drain.StopPostgres: does not model a context without a deadline, under which fast mode runs unbounded.
- WatchTail.Tail: the caller's cancellation is a number of connections after which it comes.
- AuditGate.Server.Wrap: an operation forwarded to the leader counts as let through here; what the leader's own gate does with it is that node's run.
- Redactor.Walker.Walk: the fields of an object come in the order the walk meets them, which the source leaves open.
- StoreArchive.StoreDirectory.ArchiveIncompatibleStore: the directory is taken as it is during one check; another process writing to it is not modelled.
