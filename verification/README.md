# dnsbuffer: verified models of its retry engine, caches, history and matching

dnsbuffer is a DNS proxy. This project models, in Dafny, the logic that decides what it answers, how long it
tries, what it charges its upstreams with, what it remembers and what its dashboard shows, and proves what that
logic keeps over whole runs. Sockets, TLS, QUIC, SQL and the DNS wire format are outside; where the code waits on
them, the model takes their answer as an arbitrary input.

`dafny verify dfyconfig.toml` checks everything.

## How it is organised

| file | models |
|---|---|
| `Selector.dfy` | the weighted choice of an index, exactly and under arbitrary rounding |
| `Stats.dfy` | a member's sliding window, hourly history, dashboard snapshot and selection weight |
| `Snapshots.dfy` | the dashboard snapshot and the weight, read off the recordings alone |
| `SoftFailures.dfy` | exactly when a soft failure raises a member's weight |
| `Group.dfy` | one resolution inside an upstream group: member choice, the drop guard, what is charged |
| `Engine.dfy` | the budget-scoped retry engine as a transition system |
| `EngineProgress.dfy` | what the engine does do and when: relaunching, hedging, taking answers, trying members, charging |
| `EngineLoop.dfy` | its `select!` loop on mutable fields, and that the loop and the transition system have the same runs |
| `EngineAccounting.dfy` | what every run keeps about member calls and their charges |
| `EngineBudget.dfy` | what every run keeps about time, spawning, concurrency and termination; the fallback chain |
| `Cache.dfy`, `CacheRuns.dfy` | the byte-budgeted LRU cache; its runs against a list that never forgets |
| `CacheExpiry.dfy` | runs with times: what a hit returns and when it is expired |
| `CacheInclusion.dfy` | the same operations on two budgets |
| `Store.dfy` | the history tables, cleanup, and the zero-filled trend |
| `Like.dfy` | LIKE escaping, and paging of the filtered rows |
| `Worker.dfy`, `WorkerLoop.dfy` | the batching history worker: transition system, and the loop itself |
| `WarningLimit.dfy`, `WarningLoop.dfy` | the write-warning rate limit: interleaved calls on a relaxed atomic, and the compare-exchange loop itself |
| `Generations.dfy`, `ConnectionLoop.dfy` | the shared HTTP/3 connection and its generations: transition system, and one request's two-pass loop |
| `Names.dfy`, `Filter.dfy`, `Hosts.dfy` | normalised names, rule parsing and suffix matching, hosts and wildcards |
| `Pipeline.dfy`, `PipelineAnswers.dfy` | the query pipeline with background refreshes; what clients, cache and recorder get from it |
| `Spline.dfy` | the dashboard's monotone cubic line |
| `Scripts.dfy` | what it means for a loop to follow a script |
| `Dns.dfy`, `Prelude.dfy`, `Arithmetic.dfy` | messages; sums and options; units, steps of integer and real arithmetic |

Code that updates fields in place is a class whose methods are proved against functions of the old value; loops
are loops with invariants. Code that interleaves (the engine and its attempts, the connection, the worker, the
pipeline) is additionally a transition system: a state, labels, `Enabled` and `Next`, and a run is any sequence of
enabled steps. The theorems quantify over all runs. The loops that interleave with an environment (`EngineLoop`,
`WorkerLoop`, `WarningLoop`, `ConnectionLoop`) take a script of labels saying what the environment does and when the loop is
scheduled. Their contracts say two things: whatever the script, what the loop does is a run to its end; and a script
that is the labels of such a run is followed to the letter. When a script ends early, the loop is driven to its end
(the deadline comes, the senders go away, the network answers).

## Modelling decisions

- The engine reads the clock once per step. A poll takes the first ready branch in the order join, deadline,
  hedge, retry. Attempts keep running between polls and also while they are being stopped, until their future is
  dropped; the caller may drop the engine's own future at any time (`Cancel`).
- An attempt that is still waiting when the deadline branch fires may, while it is being stopped, still get an
  answer or an error. `ExpiryCharges` therefore says, call by call, that it ends as a timeout if and only if that does
  not happen to the attempt waiting on it, and never silently.
- The write-warning limit's atomic is relaxed: a read may return any value it has held, an exchange that succeeds acts
  on the latest one, and a weak exchange may fail for no reason.
- Weights, latencies and chart coordinates are reals. Where rounding could matter the operations are parameters:
  `Selector.Arithmetic` leaves `add` and `mul` open, and only the partition theorem asks for exact ones;
  `Spline.Arithmetic` is exact in the theorems, with `3 / sqrt(s)` the positive number t with t * t * s = 9.
- i64 arithmetic is explicit: saturating in `Stats`, checked with an error result in `Store`.
- The allocator's refusals in `Cache.Store` are a number chosen by the environment; the cost of an entry is given.
- `recv` on the worker's channel returns None only when the channel is closed and no send is under way, as the
  channel library documents it. After the worker has exited the receiver is gone and nothing is accepted. A batch is
  what is handed to `insert_events`, whether or not the database then takes it.
- The rows a SELECT returns are characterised by `Store.Ordered`; `Store.OrderedRows` shows they always exist.

The dashboard section of the repository's README says that the upstream status comes from the sliding window
(README.md line 171). The code computes it from the hourly history (src/stats.rs:155-188); the model follows the
code.

## Claims that do not hold, and what does

- A soft failure can raise a member's weight when it pushes a slow success out of a full window
  (`Stats.SoftFailCanRaise`). It never does as long as no success leaves the window (`Stats.SoftFailNeverRaises`);
  when one does, the weight is not raised exactly when that success was within a threshold computed from the
  window's average, its failure count and k (`SoftFailures.SoftFailRaisesIff`).
- LRU inclusion between budgets holds with equal entry costs (`CacheInclusion.LruInclusion`). Any two unequal costs
  break it although every put is accepted (`CacheInclusion.UnequalCostsBreakInclusion`), and it breaks between one
  and two mebibytes with costs real answers have (`CacheInclusion.InclusionFailsInPractice`): over a set of costs it
  holds on all runs if and only if the set has no two different costs (`CacheInclusion.InclusionIffEqualCosts`).
- The worker can exit through the cleanup timer with events still queued (`Worker.TimerExitCanLoseEvents`). Once the
  channel is closed, choosing the timer branch always ends that way: what is queued at that moment, and what arrives
  until the exit, is never written (`Worker.TimerWhileClosedIsFatal`). An exited worker has written everything if and
  only if its last `select!` was not the timer, or the queue was empty then and nothing was accepted after it
  (`Worker.ExitDrains`).
- Write warnings are at least the interval apart on every run as long as the clock stays below the last number u64
  has. At that number the sum saturates and every call may log (`WarningLimit.SaturationRepeats`): the interval is
  kept on all runs if and only if the clock stays below it or the interval is zero (`WarningLimit.IntervalKeptIff`).

## Model

| member | source | states |
|---|---|---|
| EngineAccounting.RetryAccounting | src/upstream/hedged.rs:70-143 | on every run that has returned: no attempt is left; every member call ended in exactly one of success, soft failure, timeout, silent cancel; Ok means no timeout charged to anyone and a reply some member gave; Err means no silent cancel; charges equal calls per member and kind |
| EngineAccounting.CallsSettleOnce | src/upstream/group.rs:170-193 | between any two moments of a run no call is lost or moved, and an ended call keeps its one fate |
| EngineAccounting.ExpiryCharges | src/upstream/group.rs:150-168 | after budget expiry every open call ends charged, never silently: as a timeout if and only if the attempt waiting on it gets neither answer nor error while it is stopped; when none does, exactly one timeout per open call and member |
| EngineAccounting.MemberStatistics | src/stats.rs:99-126 | however the records of other queries fall before, between and after this query's own, it adds one window sample per success, soft failure and timeout of the member, and one dashboard sample per success and timeout, which without a retention limit is what the snapshot shows more |
| EngineAccounting.BooksAlways | src/upstream/hedged.rs:87-142 | the accounting invariant (calls owned by waiting attempts, replies genuine, flag consistent, ledger balanced) holds in every reachable state |
| EngineBudget.EngineSafety | src/upstream/hedged.rs:87-142 | in_flight is the number of live attempts and at most 8, or 1 in serial mode; Err only at or after the deadline; retries at least 50 ms after the previous spawn of any kind; after the first, no spawn at or after the deadline, so all spawns come before it if and only if the budget is not zero |
| EngineBudget.AttemptBound | src/upstream/hedged.rs:13-16 | a run makes at most 1 + W/I + W/50ms attempts, without the W/I term in serial mode |
| EngineBudget.DeadlineFindsNothingFinished | src/upstream/hedged.rs:88-126 | the deadline branch is taken only when no attempt has finished, so an arrived reply is never lost to it |
| EngineBudget.DuePollsAreJoins | src/upstream/hedged.rs:88-126 | once the deadline is due, at most in_flight joins precede it and nothing is spawned |
| EngineBudget.DueRunIsShort | src/upstream/hedged.rs:59-62 | from then on at most four steps per live attempt and three more are possible |
| EngineBudget.DueNotStuck | src/upstream/hedged.rs:87-142 | and until the engine has returned one of them is always enabled |
| EngineBudget.FallbackWaitsForBudget | src/upstream/group.rs:212-227 | the fallback starts no earlier than the primary's whole budget, an overall error takes both budgets, an answer is one a member of either chain gave |
| EngineProgress.RetryIsPrompt | src/upstream/hedged.rs:107-142 | with every attempt gone before the deadline there was a last join, and the engine can run exactly from 50 ms after the last spawn on, or when a hedge is due; that turn spawns an attempt |
| EngineProgress.HedgeIsPrompt | src/upstream/hedged.rs:127-136 | at or after start + (t + 1) * I, with t earlier hedge turns, nothing finished and the deadline not reached, a turn is possible and spawns an attempt unless eight are alive |
| EngineProgress.AnswerWins | src/upstream/hedged.rs:89-102 | once an attempt has finished with a reply while the engine runs, the query does not end in an error, and the turn that joins it ends the query with exactly that reply |
| EngineProgress.ExpiryError | src/upstream/hedged.rs:115-126 | the error at expiry is that of the attempt joined last, none if none was |
| EngineProgress.GivesUpExhausted | src/upstream/group.rs:75-105 | an attempt ends in error only after two distinct members, or all there are, with the last failing, or with no members at all |
| EngineProgress.TriesOn | src/upstream/group.rs:79-103 | before that limit its first poll, and every failure, calls the member chosen among the untried |
| EngineProgress.StepCharges | src/upstream/group.rs:150-193 | what each step records and on whom: an answer with its latency and time, an error, a dropped call unless the query succeeded |
| EngineLoop.HedgedResolver.Resolve | src/upstream/hedged.rs:70-143 | the loop on its mutable variables, whatever the clock and the attempts do: it returns, what happened is a run, Ok carries a reply a member gave and charged no timeout, Err comes no earlier than the deadline with nothing silently cancelled; and a script that is a run is followed label by label |
| EngineLoop.EveryRunIsAScript | src/upstream/hedged.rs:87-142 | every run to a return that the caller does not cut off is such a script, so the loop can take every one of them |
| EngineLoop.ResolveWithFallback | src/upstream/group.rs:216-227 | both chains run after one another as objects: the primary's answer is final, the fallback starts from the moment the primary gave up, an error takes both budgets |
| Group.UpstreamGroup.ResolveMember | src/upstream/group.rs:71-105 | tries are distinct members and each is the weighted choice made after the ones before; Err only after min(n, 2) failures; the name is the answering member's; each tried member gets its own charge |
| Group.UpstreamGroup.TryMember | src/upstream/group.rs:170-193 | one call leaves one record: success, soft failure, or a timeout when dropped unless its query already succeeded |
| Group.NextMember | src/upstream/group.rs:80-97 | a choice always exists and is untried: both breaks are unreachable |
| Group.ChooseIsFresh | src/upstream/group.rs:80-97 | for every roll, rounding and weight vector, zero and non-finite included |
| Group.ChooseIsWeighted | src/upstream/group.rs:80-98 | without rounding an untried member is chosen if and only if roll * total lies between the untried weights before and after it |
| Group.ChooseIsUniform | src/upstream/group.rs:83-97 | with no positive weight left the draw is uniform over all members, and the first untried member stands in for a tried one |
| Group.ChargedOnce | src/upstream/group.rs:85-102 | after the tries each tried member holds exactly its own call's record, the others nothing new |
| Group.NoMemberStarved | src/upstream/group.rs:55-67 | whatever was recorded for the members, and whichever others were tried before in this resolution, every untried member is chosen for some roll |
| Selector.PickWeighted | src/upstream/selector.rs:3-24 | the loop computes the specified pick; None only for no weights; a positive computed total gives a positive weight under any rounding |
| Selector.PickIsPartition | src/upstream/selector.rs:12-23 | without rounding, index i is picked if and only if roll * total lies between the totals before and after it, so the fallback is dead |
| Selector.PickInRange | src/upstream/selector.rs:4-11 | an index in range comes back whatever the weights, roll and rounding |
| Selector.PickIsUniform | src/upstream/selector.rs:8-11 | with no positive weight index i is picked if and only if roll * n lies in [i, i + 1) |
| Selector.PickIsFirstOrLast | src/upstream/selector.rs:12-23 | under any rounding the first positive weight whose running total exceeds the target, else the last positive one |
| Selector.PositiveWeightIsReachable | src/upstream/selector.rs:12-21 | every positive weight is picked by some roll in [0, 1) |
| Stats.UpstreamStats.Record | src/stats.rs:99-126 | each recorder updates window and history as specified |
| Stats.UpstreamStats.AddToHistory | src/stats.rs:65-92 | counts into the newest bucket or opens one, then prunes from the front |
| Stats.UpstreamStats.PushSample | src/stats.rs:58-63 | afterwards the window is the newest samples that fit, the new one last, and never overfull |
| Stats.WindowIsLastSamples | src/stats.rs:58-63 | after any recordings the window is the last min(N, pushes) samples |
| Stats.HistoryShape | src/stats.rs:65-92 | bucket hours strictly increase, and the last is the latest hour ever recorded, with every recorded hour at or before it and one equal to it, even with clock rollback |
| Stats.SnapshotEqualsLog | src/stats.rs:160-188 | the snapshot of the pruned history equals the fold over the unpruned log |
| Snapshots.SnapshotMeans | src/stats.rs:160-188 | read off the recordings and the configured days: successes and timeouts still shown, the failure rate as the share of timeouts, the average latency if and only if there is a success |
| Snapshots.WeightMeans | src/stats.rs:190-194 | read off the last recordings: the weight times (average latency + 1) times (1 + k * failure rate) is 1, with 100 ms when nothing succeeded |
| Stats.LiveIffOverlaps | src/stats.rs:83-97 | a bucket is kept exactly while some instant of its hour is within the retention period |
| Stats.DashboardCounts | src/stats.rs:99-126 | dashboard samples are successes plus timeouts, soft failures never show |
| Stats.WeightInUnitInterval | src/stats.rs:190-194 | after any recordings with non-negative latencies the weight lies in (0, 1] |
| Stats.SoftFailNeverRaises | src/stats.rs:113-115 | a soft failure that pushes no success out never raises the weight |
| SoftFailures.SoftFailRaisesIff | src/stats.rs:190-194 | for every window of at most N samples, a soft failure does not raise the weight if and only if no success leaves, or the leaving one is no slower than a threshold: against the cold-start 100 ms if it was the only success, else above the average by at most what the higher failure rate makes up for |
| Stats.SoftFailCanRaise | src/stats.rs:58-63 | two recorded successes, the first of them slow, fill a window in which a soft failure raises the weight |
| Cache.Cache.Fetch | src/cache.rs:79-88 | a hit returns the stored message under the query's id with its expiry, becomes most recent, and counts |
| Cache.Cache.Store | src/cache.rs:91-123 | put: remove, reserve, insert, evict, with the byte total kept exact |
| Cache.Cache.ReserveOrEvict | src/cache.rs:150-158 | each refusal evicts the least recent; false exactly when all are gone |
| Cache.Cache.EvictToBudget | src/cache.rs:114-121 | evicts from the least recent end until the total fits; the empty-map break is unreachable |
| Cache.PutEvictsLeastRecent | src/cache.rs:91-123 | eviction is a least-recent prefix, the shortest that fits beyond the forced ones; the new entry is most recent; a refusal leaves the cache empty; an oversized entry changes nothing |
| Cache.PutValid | src/cache.rs:31-36 | used bytes stay the sum of the costs and within the budget, keys stay distinct |
| Cache.TtlIsMinimum | src/cache.rs:90-92 | the lifetime is the smallest TTL among the answers |
| CacheRuns.CacheIsRecentEnd | src/cache.rs:38-42 | after any operations the cache is exactly the most recently used end of a recency list that never forgets |
| CacheRuns.CacheRefinesMap | src/cache.rs:38-42 | every stored entry is the last accepted put of its key and the byte count is exact and within budget |
| CacheRuns.ReferenceHoldsLast | src/cache.rs:91-123 | the reference list holds the last accepted entry of each key |
| CacheExpiry.HitMeans | src/cache.rs:79-110 | a hit is the message of the last accepted put of its key under the asker's id, expired if and only if some answer's TTL, or a minute without answers, has passed since that put |
| CacheInclusion.LruInclusion | src/cache.rs:79-123 | with equal costs and no refusals a smaller budget's cache is a subsequence of a larger one's, so each of its hits is the same hit in the larger |
| CacheInclusion.UnequalCostsBreakInclusion | src/cache.rs:93-121 | for any two unequal costs, four accepted operations and two budgets one byte apart after which only the smaller cache holds a key |
| CacheInclusion.InclusionFailsInPractice | src/cache.rs:52-63 | the same between one and two mebibytes, every put accepted and at the cost of an answer of at most 65,535 bytes under its own name |
| CacheInclusion.InclusionIffEqualCosts | src/cache.rs:91-123 | over a set of entry costs inclusion holds for all budgets and runs if and only if the costs are all equal, and likewise when only runs with every put accepted are considered |
| Store.TrendIsExact | src/dashboard/store.rs:477-584 | after any inserts and cleanups up to now: buckets of an hour or a day one after another, the last holding now, each with the number of events ever stored whose timestamp lies in it, of those blocked, and of those that hit the cache: cleanup never shows |
| Store.TrendLimit | src/dashboard/store.rs:526-536 | a trend is returned if and only if the calendar represents the instant and the retention is at most 9,999 days |
| Store.WindowShape | src/dashboard/store.rs:485-533 | 24r+1 buckets for 1 to 15 days, r+1 above, 30 for unlimited retention; the window starts past the cleanup cutoff |
| Store.MergeRows | src/dashboard/store.rs:554-577 | the peek-merge yields the zero-filled window and consumes every selected row |
| Store.OrderedRows | src/dashboard/store.rs:539-552 | the rows the merge reads, one per stored bucket in range and in order, exist for every table |
| Store.RunAligned | src/dashboard/store.rs:409-415 | every row sits on a bucket boundary, so the merge meets it |
| Store.CleanupIsExact | src/dashboard/store.rs:438-462 | cleanup removes exactly the details before the cutoff and the buckets wholly before it; the rest is there as often and as it was |
| Store.LogsAreKept | src/dashboard/store.rs:380-462 | after any run the log holds each event as often as a successful insert stored it without a later cleanup being past its retention |
| Store.Store.InsertEvents | src/dashboard/store.rs:380-436 | all events or, when one has an unrepresentable timestamp, none |
| Store.Store.Clean | src/dashboard/store.rs:438-462 | the same of the tables in place; nothing at all when there is no period or its start leaves i64 |
| Store.Store.ReadTrend | src/dashboard/store.rs:477-584 | the checks, the window and the merge together give the specified trend |
| Like.SearchIsExact | src/dashboard/store.rs:617-627 | the escaped pattern matches a text if and only if the text contains the search text, up to ASCII case |
| Like.EscapeIsOnePass | src/dashboard/store.rs:986-991 | the three sequential replaces are one per-character escape |
| Like.SelectedIsContainment | src/dashboard/store.rs:618-627 | a row is listed exactly when its domain or one of its addresses contains the text |
| Like.PagesPartition | src/dashboard/store.rs:607-648 | the first n pages are the first n * size rows: none repeated, none skipped |
| Like.PageMeans | src/dashboard/store.rs:607-648 | refused exactly for a size outside 1 to 200 or an offset outside i64; else page number, total and the rows from (page - 1) * size on |
| Like.SearchPages | src/dashboard/store.rs:607-648 | paging through a search shows, newest first and without gap or repetition, rows that contain the text, and has shown all of them once the pages reach the total |
| Like.ListingExists | src/dashboard/store.rs:634-639 | the ordered selection the pages are cut from exists for every table and search |
| Worker.BatchesArePrefix | src/dashboard/store.rs:198-242 | batches have 1 to 128 events and concatenate to an in-order prefix of the accepted events |
| Worker.BatchesFillUp | src/dashboard/store.rs:215-220 | while events wait a batch takes more exactly until it holds 128 |
| Worker.ExitDrains | src/dashboard/store.rs:199-241 | for every exit and its last `select!`: everything is written if and only if that was not the timer branch, or the queue was empty then and nothing was accepted after it; with no send under way, if and only if the queue was empty |
| Worker.TimerExitDrains | src/dashboard/store.rs:207-241 | an exit through the timer loses exactly the events queued when the branch was taken and those accepted since |
| Worker.TimerWhileClosedIsFatal | src/dashboard/store.rs:207-241 | the timer branch taken on a closed channel always ends in the exit at the worker's next step, with nothing more written |
| Worker.TimerExitCanLoseEvents | src/dashboard/store.rs:207-241 | a run that exits through the cleanup timer with an event still queued |
| Worker.ShutdownTerminates | src/dashboard/store.rs:198-242 | after shutdown at most eight steps per queued event and six more, and never stuck before the exit |
| Worker.FinishedIsFinal | src/dashboard/store.rs:202-206 | nothing is accepted once the channel is closed and no send is under way |
| WorkerLoop.StoreWorker.CollectBatch | src/dashboard/store.rs:212-221 | the inner loop is a run of receive steps ended by a batch end, with 1 to 128 events in hand |
| WorkerLoop.StoreWorker.Work | src/dashboard/store.rs:198-242 | the whole loop, whatever producers and timers do: it exits, what happened is a run, each accepted event is in a batch of 1 to 128 or left in the queue, in order; and a script that is a run is followed label by label |
| WorkerLoop.EveryRunIsAScript | src/dashboard/store.rs:198-242 | every run to an exit is such a script |
| WarningLimit.WarningsAreSpaced | src/dashboard/store.rs:39-55 | over every interleaving, stale reads and spurious failures included: one warning per call told to log, any two at least the interval apart below the end of u64, and a call kept silent only for a warning less than the interval before its reading, or after it |
| WarningLimit.IntervalKeptIff | src/dashboard/store.rs:39-55 | warnings are the interval apart on all runs if and only if the clock stays below the last number u64 has, or the interval is zero |
| WarningLimit.SaturationRepeats | src/dashboard/store.rs:45-50 | two calls at that number that are both told to log |
| WarningLimit.AloneLogs | src/dashboard/store.rs:39-55 | an undisturbed call at a reading not before the stored value is told to log and stores its reading plus the interval |
| WarningLoop.WarningRateLimit.ShouldLog | src/dashboard/store.rs:39-55 | the loop, whatever the other calls do and the reads return: it ends, what happened is a run in which this call logged or kept silent as it says, and a script that is a run is followed label by label |
| WarningLoop.EveryRunIsAScript | src/dashboard/store.rs:39-55 | every continuation of a run to the end of the call is such a script |
| Generations.GenerationsAdvance | src/upstream/doh3.rs:121-188 | over every interleaving installed generations strictly increase, a request sends at most twice, and its second send is on a strictly newer generation |
| Generations.FailureDiscardsOnlyItself | src/upstream/doh3.rs:81-89 | an installed connection disappears only through a failure on that very generation or because it was found dead |
| Generations.GoesOutOnLive | src/upstream/doh3.rs:124-143 | a live connection is reused, a dead or missing one replaced under the lock, and the request goes out on what is then installed |
| Generations.RequestsEndForAReason | src/upstream/doh3.rs:121-188 | answered only after a send of its own succeeded, failed only after connecting failed or two of its sends did |
| ConnectionLoop.H3Conn.InvalidateGeneration | src/upstream/doh3.rs:81-89 | one step of the transition system after others have acted: the first pass goes on to the second with this generation as the failed one, the second pass ends |
| ConnectionLoop.H3Conn.PerformRequest | src/upstream/doh3.rs:121-188 | a whole request from any moment of any run, whatever the others do: it ends answered or failed, what happened is a run, it sends at most twice and the second time on a newer generation; and every way it can go is followed label by label |
| ConnectionLoop.EveryRunIsAScript | src/upstream/doh3.rs:121-188 | every continuation of a run to the end of the request is such a script |
| ConnectionLoop.H3Conn.Checkout | src/upstream/doh3.rs:124-143 | the locked block as steps of the transition system: a generation to send on, or the end of the request when connecting fails |
| Names.AnySuffixIn | src/filter.rs:112-131 | the walk over dots finds a label suffix in the set if and only if there is one |
| Names.NormalizeIgnoresCaseAndDots | src/filter.rs:15-17 | names differing in case and trailing dots normalise alike |
| Names.NormalizeIff | src/filter.rs:15-17 | names normalise to the same text if and only if they agree up to letter case and trailing dots |
| Names.LowerMeans | src/filter.rs:15-17 | lower case changes exactly the twenty-six ASCII letters |
| Names.NormalizeMeans | src/filter.rs:15-17 | the normal form is the lower-cased name without exactly its trailing dots |
| Filter.IsBlocked | src/filter.rs:109-132 | blocked if and only if some label suffix is blocked and none is allowlisted or excepted |
| Filter.BlockedIgnoresCaseAndDots | src/filter.rs:109-111 | the verdict does not depend on case or trailing dots |
| Filter.ParseRules | src/filter.rs:42-88 | the loop collects the rule of every line |
| Filter.ParseJoined | src/filter.rs:30-34 | parsing two texts joined by a line feed is merging their parses |
| Filter.SingleLabelNeverBlocked | src/filter.rs:19-21 | no rule text can block a name of one label |
| Filter.AdblockForms | src/filter.rs:49-66 | the block and exception forms, in any letter case and with any separator and options, read back as the domain they name |
| Filter.PlainForm | src/filter.rs:77-83 | a bare domain line blocks that domain, with or without a comment |
| Filter.HostsForm | src/filter.rs:67-76 | a hosts line blocks its domain if and only if its first field is an address, with or without a comment |
| Filter.CommentForm | src/filter.rs:45-48 | lines that start with ! or # give no rule |
| Filter.RuleDomains | src/filter.rs:19-21 | whatever the text, rule domains have a dot and none of the excluded characters |
| Filter.AllowlistExempts | src/filter.rs:97-122 | a configured exemption, in any spelling, exempts its domain and everything below it |
| Filter.BlockRuleCoversSubdomains | src/filter.rs:58-66 | from rule text to verdict: wherever the rule stands in a list, a name equal to its domain or below it, both in any spelling, is blocked if and only if neither the allowlist nor an exception covers it |
| Filter.SubdomainNormal | src/filter.rs:15-17 | a subdomain written out, with any trailing dots, is such a name |
| Hosts.Find | src/hosts.rs:38-51 | the exact entry, else the first wildcard met while stripping labels |
| Hosts.MatchedIsExactOrLongest | src/hosts.rs:38-51 | that is the wildcard of the longest proper label suffix, and nothing exactly when there is none |
| Hosts.FromEntries | src/hosts.rs:20-32 | each map holds the last entry of each normalised name |
| Hosts.ExactEntryIsFound | src/hosts.rs:20-41 | a plain entry is found under every spelling of its name |
| Hosts.WildcardEntryIsFound | src/hosts.rs:20-51 | a wildcard entry is found under every name below its base without an exact entry or a closer wildcard |
| Pipeline.PipelineAlways | src/pipeline.rs:85-215 | over every interleaving: answers carry their query's id (section 4.1.1 of RFC 1035); cache entries are error-free upstream responses to queries with that key; hits are such responses; one event per answered question and none for refreshes; every arrival answered once or waiting |
| Pipeline.LocalAnswerTouchesNothing | src/pipeline.rs:94-97 | over every run, rule updates included: each query sent upstream and each cache entry goes back to an arrival that matched neither hosts nor filter when it came, and a match is answered on the spot with cache and upstream untouched |
| PipelineAnswers.AnswersAreRight | src/pipeline.rs:85-147 | over every run each answer is right: a failure without a question, the hosts entry's addresses of the queried family in order, the block answer, a cached answer marked by its shape, an upstream's answer as it came with its name, or a failure when the upstream gave nothing |
| PipelineAnswers.HitsAnswerTheQuestion | src/pipeline.rs:99-111 | a cached answer was an upstream's error-free answer to the same record type of the same name, under the asker's id |
| PipelineAnswers.CacheDecides | src/pipeline.rs:99-118 | a hit is answered with the last accepted put under its key and starts one refresh if and only if its lifetime has passed since that put; a miss goes upstream |
| PipelineAnswers.ResponsesAreCached | src/pipeline.rs:114-121 | an error-free response the cache takes is in it right after, for a first answer and for a refresh alike; any other leaves the cache alone |
| PipelineAnswers.EventsDescribeAnswers | src/pipeline.rs:149-188 | the events are, in order, one per answered question, each with that answer's name, type, code, marks and upstream |
| PipelineAnswers.KeyMeans | src/cache.rs:14-22 | queries share a cache key if and only if they ask for the same record type of the same name |
| Pipeline.Pipeline.FinishQuery | src/pipeline.rs:113-147 | the handler after its await does one step of the transition system, storing an error-free response and answering |
| Pipeline.Pipeline.FinishRefresh | src/pipeline.rs:191-215 | the background refresh after its await does one step |
| Pipeline.Pipeline.HandleQuery | src/pipeline.rs:85-147 | the handler on its shared objects does one arrival step |
| Pipeline.Pipeline.Optimistic | src/pipeline.rs:99-130 | a hit is answered at once, refreshed if expired, marked blocked by its content |
| Pipeline.IsBlockedResponse | src/pipeline.rs:222-245 | true if and only if there is an address record, all are unspecified, and there is no error |
| Pipeline.BlockResponseIsBlockShaped | src/filter.rs:135-168 | a local block answer to an address query is recognised as one |
| Spline.StrokeSmoothLine | src/dashboard/assets/chart.js:193-247 | the work arrays and loops produce the specified segments |
| Spline.LimitInPlace | src/dashboard/assets/chart.js:222-236 | one limiter iteration rewrites exactly the two tangents of its segment |
| Spline.NeverOvershoots | src/dashboard/assets/chart.js:187-192 | for any three or more points, control ordinates and the curve itself stay between the end points of each segment |
| Spline.SegmentIsMonotone | src/dashboard/assets/chart.js:187-192 | each segment is monotone |
| Spline.LimitedIsSafe | src/dashboard/assets/chart.js:222-236 | after k limiter steps the first k segments are safe: limiting a later one never unsettles an earlier one |
| Spline.SegmentsJoinSmoothly | src/dashboard/assets/chart.js:238-245 | neighbouring segments share their tangent direction |
| Spline.PassesThroughPoints | src/dashboard/assets/chart.js:239-245 | the curve passes through every point |
| Spline.StraightStaysStraight | src/dashboard/assets/chart.js:212-236 | points on a line keep the line's slope: nothing is limited needlessly |
| Spline.UnlimitedTangents | src/dashboard/assets/chart.js:212-220 | where no segment needs the limiter the tangents are the secants at the ends, the averages inside, flat at extrema |
| Spline.LimiterProjects | src/dashboard/assets/chart.js:226-234 | where one does, both its tangents are scaled by one factor onto the rim of the disc of radius 3 |
| Spline.SlopesAreTangents | src/dashboard/assets/chart.js:238-245 | at both ends of a segment the curve has the slope of the tangent there |
| Spline.CurveIsAGraph | src/dashboard/assets/chart.js:238-245 | the abscissa moves evenly, so the curve is the graph of a cubic over each segment |

## Left out

- Sockets, TLS, QUIC, HTTP/2, ECH and bootstrap: a leaf resolver is an arbitrary answer with the query's id, an error, or nothing.
- The DNS wire format: messages have an id, a response code, questions and answers; the cost of a cache entry is given.
- SQL text, SQLite locking, schema creation and migration: tables are maps and sequences. The query log keeps only what cleanup and the trend use.
- NUL characters in LIKE operands, which SQLite treats as the end of the text.
- Calendar arithmetic: UTC midnight is the floor to a whole day.
- Non-ASCII letter case in names and in LIKE: only A to Z fold.
- Mutex poisoning other than as a zero weight, panics, and wrap-around of the u64 generation counter.
- The timestamp, duration and address list of a query event.
- The client-subnet option: refreshes and first queries differ there, and nothing is claimed about it.
- Rankings, response-time summary, cache-hit sampler and configuration parsing: they would only add easy members.
- Floating-point rounding in the spline: the theorems are about exact arithmetic.
- Selector.PickInRange: weights, totals and their rounding are real numbers, so a running total that overflows to infinity is outside what "any rounding" covers.
- The worker's cleanup calls: the timer branch is modelled, the deletion it triggers is `Store.Store.Clean`.
