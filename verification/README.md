# Snip: a verified model

Snip is a URL shortener. Links are rows of a MySQL table, served through a Redis cache that is filled and evicted by
four kinds of request; clicks go through a bounded channel to a worker pool; clients are rate limited per IP. This
project models those parts in Dafny and proves what they keep, over all inputs, all runs and all interleavings.

`dafny verify dfyconfig.toml` checks the whole project.

## Structure

| file | what it holds |
|---|---|
| `Base62.dfy` | the codec of `internal/hash`: wrapping 64-bit addition, the 16-byte buffer, round trips, injectivity, order, length |
| `Anonymize.dfy` | IP masking in place, and when two addresses are one reporter |
| `Store.dfy` | the shared state (`urls`, `url_reports`, the two Redis key families) and its single operations |
| `Links.dfy` | the link lifecycle as a machine over single database and cache operations: any number of `Resolve`, `Shorten`, `Report` and rescan requests in flight, each operation free to fail, to take effect without acknowledgement, or to be the request's last |
| `Provenance.dfy` | the invariant of that machine, where cache hits come from, the empty-hash lock |
| `Staleness.dfy` | how long the cache may outlive a block or an expiry, and which steps undo a block |
| `ReportCount.dfy` | concurrent reports and the block threshold |
| `Requests.dfy` | whole service calls one at a time, for every combination of faults: absorption of malicious, deduplication, agreement with the uncached path |
| `Outcomes.dfy` | the answers of whole calls in terms of rows, cache entries and reports, each with its exact condition; round trips across calls |
| `Services.dfy` | the repositories, the cache and the services as objects updated in place, proved against `Requests` and against the rows |
| `Bridge.dfy` | each whole service call is a run of the interleaved machine |
| `Duplicates.dfy` | deduplication when calls overlap |
| `Creation.dfy` | how a blank row loses its owner, and when links can still be created |
| `Undone.dfy` | a block taken back by the Shorten that created the link |
| `Tightness.dfy` | runs that reach the bound on serving a blocked link |
| `Rescan.dfy` | the rescanner as an object, and progress and stalling of its cycles |
| `ScanCache.dfy` | the time-limited memo of scan results, interleaved |
| `Dispatcher.dfy` | the analytics dispatcher as a machine, and as an object whose atomic sections are the machine's steps |
| `RateLimit.dfy` | token buckets over exact reals, the entry map, idle eviction |
| `Wrappers.dfy` | `Option` and `Result` |

## What the proofs found

- A row left with the empty hash (its `Shorten` failed, timed out or died between INSERT and the hash UPDATE) is a lock
  that nothing releases: no link is ever created again (`OrphanLocksForever`). One interrupted `Shorten` leaves such a
  row (`OrphanArises`), and links can still be created exactly as long as there is none (`CreationTheorem`).
- Two overlapping `Shorten` calls for one URL both create a row, without any fault (`OverlappingShortens`), although the
  deduplication query is there to prevent that; `TwinsArise` says on exactly which step it happens. Calls that do not
  overlap never do it (`NoDuplicates`).
- A block set by reports can be undone, by a rescan working from its snapshot or by the status write of the `Shorten`
  that created the link, and by nothing else (`UnblockingSteps`; runs of both kinds are `ReportUndone` and
  `CreatorUndoesBlock`).
- A blocked link may still be served until just before the block + `delta` + the larger of the two TTLs, where `delta`
  is the longest time from a request's row read to the end of its cache fill, and no later. No delete need be lost for
  that: a fill that was under way when the link was blocked is enough (`BlockedWithin`, `BlockBoundReached`).
- A cache hit does not look at the expiry. With the same `delta`, a link may be served until just before
  `ExpiresAt + delta + cacheTTL`, and no later (`ExpiredWithin`, `ExpiredBoundReached`). This is also the only way in
  which `Resolve` with a cache differs from `Resolve` without one when calls do not overlap and meet no error
  (`CachedAgrees`).
- Shutting down a dispatcher with no workers takes the "done" branch at once and abandons the queue
  (`DoneMeansDrained`).
- Rescans fetch the hundred oldest unverified rows. While the scanner cannot decide, cycles can try a row exactly when at
  one of their times fewer than a hundred older rows are waiting; any other row starves, in runs of any length
  (`StarvationTheorem`; `LateLinksStarve` is a table in which all but the first hundred do).
- Under a case-insensitive collation of the hash column, which migration 000001 does not rule out, two links exclude each
  other exactly when all pairs of their digits fold together (`CaseInsensitiveColumnClashes`); ids 10 and 36 are such a
  pair.
- Evicting idle limiter entries is unobservable exactly when `burst <= rps * 600`; every limiter wired in `cmd/api`
  meets that (`EvictionTheorem`, `WiringRefills`).
- The advertised `Retry-After: 60` is honoured exactly by limiters with `burst >= 1` and `rps * 60 >= 1`
  (`RetryTheorem`).

Where the repository's README and its code disagree the model follows the code: links are the Base62 digits of
`id + 62^6`, so the first is `1000001` and not `0000001`; duplicates and auto-blocks are as described above.

## Assumptions

- All parties read one clock, which never goes back. Time is in arbitrary units (seconds in `RateLimit.dfy`).
- JSON survives its round trip, SHA-256 keys of distinct URLs are distinct, and no plain-string entries from an older
  version remain in Redis: a run starts with an empty cache. It may start with any well-formed table.
- TTL settings are at least one day (`ValidConfig`); to go-redis a TTL of zero would mean no expiry.
- `hash` is compared exactly. Hashes reach the services from a non-empty route parameter.
- `NormalizeURL` followed by `ValidateURL` is a function from text to accepted text, whose results have scheme http or
  https; `url.Parse` plus the scheme test of `Resolve` is a predicate.
- A scanner answer is any of clean, malicious and unverified.
- In the rate limiter, finding an entry and taking a token are one step, and so are a cleanup's check and deletion of one
  key; requests come between the checks of one cleanup.
- Reports that are compared with the threshold in `BlockedIffReported` meet no error between insert and block.

## Model

| member | source | states |
|---|---|---|
| Base62.Encode | internal/hash/base62.go:15-28 | the backwards loop over the fixed buffer yields the digits of the wrapped sum; its index stays at 5 or above, so the buffer cannot overflow |
| Base62.Decode | internal/hash/base62.go:31-47 | the wrapping accumulation accepts exactly what the specification accepts, with the same one of three errors |
| Base62.AlphabetLetters | internal/hash/base62.go:8 | the arithmetic letter and index functions agree with the alphabet constant at all 62 places, and a character has an index exactly when it is in the alphabet |
| Base62.ValueOfDigits | internal/hash/base62.go:22-27 | digits denote the number they were made from, over the alphabet, without a leading zero |
| Base62.DigitsOfValue | internal/hash/base62.go:36-42 | an alphabet string without a leading zero is the digit string of its value |
| Base62.DigitCount | internal/hash/base62.go:22-27 | a number has at most k digits exactly when it is below 62^k |
| Base62.DecodeAfterEncode | internal/hash/base62.go:15-47 | decoding an encoded id gives it back exactly for ids below 2^64 - 62^6, and is an underflow error for all others |
| Base62.EncodeAfterDecode | internal/hash/base62.go:15-47 | a string survives decode then encode if and only if it is over the alphabet, has no leading zero and its value lies in [62^6, 2^64) |
| Base62.EncodedInjective | internal/hash/base62.go:15-28 | no two 64-bit ids share a link, wrapped sums included |
| Base62.RoutableIds | internal/handler/redirect.go:22 | a link matches the seven-character redirect pattern if and only if its id is below 62^7 - 62^6 |
| Base62.ColumnWidth | migrations/000001_create_urls_table.up.sql:3 | links have at most 11 characters, and fit VARCHAR(10) exactly when the digit value is below 62^10 |
| Base62.EncodedOrder | internal/hash/base62.go:10-28 | where the addition does not wrap, ids are ordered as their links in length-then-lexicographic order, both directions |
| Base62.FoldedClash | internal/hash/base62.go:8-28 | two links coincide under ASCII case folding if and only if their wrapped sums have equally many base 62 digits, each pair equal or 26 apart among the letters |
| Base62.CaseFoldingCollides | internal/hash/base62.go:8-12 | ids 10 and 36 are such a pair, with links 100000A and 100000a |
| Anonymize.AnonymizeIP | internal/analytics/anonymize.go:7-24 | in place: an IPv4 address keeps its first three octets and its last becomes 0, an IPv6 address keeps its first eight bytes and the other eight become 0, both in the array and in the text; blank for no address |
| Anonymize.SameReporter | internal/analytics/anonymize.go:5-24 | two addresses count as one reporter if and only if they share an IPv4 /24 or an IPv6 /64 |
| Anonymize.MaskedTwice | internal/analytics/anonymize.go:7-24 | masking the stored text again changes nothing; a masked IPv6 address never reads back as IPv4 |
| Store.FindByHash | internal/repository/mysql/url_repository.go:53-71 | returns a row with the hash, or none only when no row has it |
| Store.LinksDiffer | internal/service/shortener.go:90 | assigned hashes are never empty and differ for different ids |
| Store.HashNamesRow | migrations/000001_create_urls_table.up.sql:3 | in a well-formed table a non-empty hash names one row only, the one whose id encodes to it, and that is the row the query returns |
| Store.InsertKeepsForm | internal/repository/mysql/url_repository.go:36-51 | an insert keeps hashes '' or the row's own link, at most one '', and every older row |
| Store.HashKeepsForm | internal/repository/mysql/url_repository.go:147-156 | assigning its own link to a blank row meets no other row's hash, and keeps the form of the table |
| Store.StatusKeepsForm | internal/repository/mysql/url_repository.go:169-195 | status writes keep the form of the table and every row's URL, hash and expiry |
| Store.CaseInsensitiveColumnClashes | migrations/000001_create_urls_table.up.sql:10 | under a case-insensitive comparison a row can take its link if and only if no other row holds a link whose digits fold together with its own |
| Store.RowsAreReporters | migrations/000004_add_url_reports.up.sql:9 | under the UNIQUE key a link has as many report rows as distinct reporters |
| Store.ReportersGrow | internal/repository/mysql/report_repository.go:28-57 | a new report raises the distinct count of its own link by exactly one and no other; a repeated one raises none |
| Links.StepFrame | internal/service/shortener.go:53-112 | a step of one request moves no other request |
| Provenance.InvNext | internal/service/redirector.go:44-96 | every operation of every request, with any fault, keeps the invariant over table, cache and all requests in flight; rows are never lost, and of a row only a blank hash and the status change |
| Provenance.InvRun | internal/service/redirector.go:44-96 | so does every run of interleaved operations |
| Provenance.HitProvenance | internal/repository/redis/cache.go:40-94 | in every reachable state a hit for h has the original URL of the only row whose id encodes to h, the id of that row or 0, a web URL, and never status malicious |
| Provenance.HashDiscipline | internal/service/shortener.go:81-96 | in every reachable state hashes are '' or the row's own link, all distinct, and at most one request stands between its insert and its hash update |
| Provenance.EmptyHashBlocksCreate | internal/repository/mysql/url_repository.go:36-42 | while a row has the empty hash no operation of any request adds a row |
| Provenance.OrphanLocksForever | internal/service/shortener.go:86-94 | once the owner of the empty-hash row is gone, in every continuation the row keeps the empty hash and no row is ever added |
| Creation.OrphanArises | internal/service/shortener.go:86-94 | from every invariant state that can take a row, a Shorten whose insert is not acknowledged or whose hash update fails leads to a blank row without an owner |
| Creation.CreationTheorem | internal/service/shortener.go:63-96 | with ids left and an accepted URL without an unexpired row, some continuation creates a link if and only if no blank row has lost its owner |
| Staleness.BlockedWithin | internal/service/redirector.go:44-95 | from any reachable state at T, whatever interleaves and however many deletes are lost, a row malicious from T on is never served at or after T + delta + the larger TTL |
| Tightness.BlockBoundReached | internal/service/shortener.go:80-109 | for all settings, times and delta a run with no lost delete serves a permanently malicious link one unit before that bound, through a Resolve or a Shorten whichever has the larger TTL |
| Staleness.UnblockingSteps | internal/scanner/rescan.go:77-87 | in every reachable state a malicious row stops being so on exactly the effective non-malicious write of a rescan or the status write of the creating Shorten |
| Staleness.BoundedRun | internal/service/shortener.go:104-109 | no url key of a reachable state outlives the clock by more than the larger TTL |
| Staleness.ExpiredWithin | internal/service/redirector.go:45-60 | under every interleaving no link is served at or after its expiry + delta + cacheTTL, although hits do not check expiry |
| Staleness.ExpiredBoundReached | internal/service/redirector.go:71-90 | for every setting, delta and expiry a legal run serves a link one unit before that bound |
| ReportCount.BlockedIffReported | internal/service/report.go:67-96 | any number of concurrent Reports with separate insert, count and update: once all have decided, the link was blocked if and only if at least threshold distinct anonymised addresses are on record |
| ReportCount.CountedRun | internal/service/report.go:75-95 | on the way there, whenever the threshold is reached the link is blocked or some Report is still about to decide |
| ReportCount.BlockSetsMalicious | internal/service/report.go:88-91 | a link counts as blocked only by a Report's write of malicious to its row |
| ReportCount.NeverBlockedEarly | internal/service/report.go:82-88 | even with errors and abandoned requests no link is blocked below the threshold |
| Requests.ShortenForm | internal/service/shortener.go:80-109 | for every combination of faults Shorten leaves old rows alone and adds at most the next id's row for this URL |
| Requests.StepTable | internal/service/shortener.go:53-112 | each whole call keeps the table well-formed and each existing row's hash |
| Requests.AbsorbingStep | internal/scanner/rescan.go:77-87 | between whole calls, exactly the processOne that writes a harmless result takes a row out of malicious |
| Requests.MaliciousAbsorbs | internal/scanner/rescan.go:57-80 | malicious is absorbing in every run of whole calls in which processOne finds its row still unverified |
| Requests.ReportUndone | internal/service/report.go:88-91 | that condition is needed: with threshold - 1 reporters on record, a fetch that returns the link first, a new Report, and the write from the snapshot leave the row not malicious |
| Undone.CreatorUndoesBlock | internal/service/shortener.go:92-98 | whenever a Shorten is about to write its scan status and threshold - 1 reporters of its link are on record, one more Report makes the row malicious and the status write then undoes that, without any fault |
| Undone.ReachesStatusWrite | internal/service/shortener.go:63-98 | every accepted URL without an unexpired row can bring a Shorten to that point, its link already live |
| Requests.NoDuplicates | internal/service/shortener.go:63-94 | after any whole calls, with any faults, no two unexpired rows share an original URL |
| Requests.TrueRun | internal/service/redirector.go:89-93 | after error-free whole calls every cached hash mirrors a row that is not malicious, with its URL and id under one deadline |
| Requests.CachedAgrees | internal/service/redirector.go:44-96 | after any error-free calls Resolve with the cache answers as with a nil cache if and only if it is not a hit on an expired link; on such a hit it serves what the other calls expired |
| Outcomes.ResolveUnfound | internal/service/redirector.go:66-69 | Resolve at the database answers a database error exactly on a failed query, and unknown exactly when no row has the hash |
| Outcomes.ResolveRow | internal/service/redirector.go:71-95 | for the row with the hash: gone exactly when expired, bad scheme exactly when unexpired and not web, refused exactly when unexpired, web and malicious, and otherwise its URL, id and status |
| Outcomes.CacheOutcome | internal/service/redirector.go:45-93 | a live url entry decides by itself; a miss or a failed read gives the answer of a nil cache; exactly a served miss fills both keys for cacheTTL and exactly a refusal drops both |
| Outcomes.ShortenAnswers | internal/service/shortener.go:53-94 | each of the seven answers of Shorten with the exact condition for it: acceptance, duplicate, scan, lock and faults |
| Outcomes.ShortenRefusals | internal/service/shortener.go:53-88 | without a created link the cache is untouched, and without an insert the table too |
| Outcomes.ShortenFailures | internal/service/shortener.go:86-94 | after a failed insert or hash update: no new row, a blank one, or one whose link the caller never hears of, by fault and lock |
| Outcomes.ShortenCreates | internal/service/shortener.go:80-111 | a created link has a new id, the Base62 link of it, the scan's status, and leaves exactly its row and its cache entries |
| Outcomes.ShortenThenResolve | internal/service/shortener.go:90-111 | the hash that Shorten returns resolves to the accepted URL until its expiry, with the cache it leaves and with none, whatever cache writes were lost |
| Outcomes.ReportUnfound | internal/service/report.go:58-61 | a report of a hash that no row has, or whose lookup fails, gets its own answer and changes nothing |
| Outcomes.ReportOutcome | internal/service/report.go:63-98 | each answer of a report of an existing link with the exact condition for it, what it adds to the reports, and when it makes the row malicious and drops the keys |
| Outcomes.SecondReport | internal/service/report.go:67-80 | after an accepted report, a second one is a duplicate exactly when it comes from the same /24 or /64 or was on record, and is accepted otherwise |
| Services.URLRepository.constructor | internal/repository/mysql/url_repository.go:32-34 | the repository starts on the given well-formed table |
| Services.URLRepository.Create | internal/repository/mysql/url_repository.go:36-51 | inserts the blank pending row, or consumes an id on a duplicate key; the caller gets the id only on a seen success |
| Services.URLRepository.FindByHash | internal/repository/mysql/url_repository.go:53-71 | the row of the hash with its id, or none |
| Services.URLRepository.FindByOriginalURL | internal/repository/mysql/url_repository.go:93-113 | some unexpired row of the URL, or none when there is none |
| Services.URLRepository.FindUnverified | internal/repository/mysql/url_repository.go:115-145 | a hundred oldest unexpired unverified rows, oldest first, or all when there are fewer |
| Services.URLRepository.UpdateHash | internal/repository/mysql/url_repository.go:147-156 | the hash of one row changes unless another row has it; success seen only without fault |
| Services.URLRepository.UpdateStatus | internal/repository/mysql/url_repository.go:169-195 | the status of one row changes and nothing else |
| Services.ReportRepository.Insert | internal/repository/mysql/report_repository.go:28-46 | a second report by the same reporter on the same link is the duplicate error and changes nothing |
| Services.ReportRepository.CountDistinctIPs | internal/repository/mysql/report_repository.go:48-57 | a pass over the report rows yields the number of distinct reporters of the link, repeated reporters and other links not counted |
| Services.RedisURLCache.Get | internal/repository/redis/cache.go:40-68 | a miss without a live url key; id 0 without a live meta key |
| Services.RedisURLCache.Set | internal/repository/redis/cache.go:70-84 | two keys, either of which may be lost |
| Services.RedisURLCache.Delete | internal/repository/redis/cache.go:86-94 | both keys at once, or none |
| Services.Redirector.Resolve | internal/service/redirector.go:44-96 | answer and new cache are those of the specification for every fault; without a live url entry, or with a nil cache, the answer is a database error exactly on a failed query, unknown exactly when no row has the hash, and otherwise what expiry, scheme and status of the row with that hash decide, in that order |
| Services.Shortener.Shorten | internal/service/shortener.go:53-112 | answer, new table and new cache are those of the specification for every fault; a created link is answered with its row's id, the Base62 link of that id and the scan status, and the row has that hash, the accepted URL and the expiry |
| Services.Reporting.Report | internal/service/report.go:57-99 | answer, table, cache and reports are those of the specification for every fault; accepted only when the pair of row and masked address was not on record and was added, duplicate only when it was and nothing was added, unknown exactly when no row has the hash, invalid exactly outside the five reasons |
| Rescan.Rescanner.ProcessOne | internal/scanner/rescan.go:77-94 | writes the scan result by id whatever the row has become, and evicts the snapshot's hash when malicious |
| Rescan.Rescanner.RunCycle | internal/scanner/rescan.go:56-75 | a failed fetch changes nothing; otherwise all fetched items are processed when cancellation comes after them, exactly cancelAfter of them when it comes earlier, and one when it came before the cycle; each processed row gets its own scan result, malicious ones lose their cache keys, nothing else changes; an uncancelled cycle of definitive answers takes a backlog of n to max(0, n - 100) |
| Bridge.ResolveRuns | internal/service/redirector.go:44-96 | a whole Resolve with any faults is a run of the interleaved machine with the same effect on the shared state |
| Bridge.ShortenRuns | internal/service/shortener.go:53-112 | the same for Shorten of an accepted URL |
| Bridge.ReportRuns | internal/service/report.go:57-99 | the same for Report |
| Bridge.ProcessRuns | internal/scanner/rescan.go:69-87 | the same for processOne on the head of a fetched list |
| Duplicates.TwinsArise | internal/service/shortener.go:63-88 | in any reachable state without duplicates, a step makes one if and only if it is an effective insert for a URL that gained an unexpired row since the dedup check |
| Duplicates.OverlappingShortens | internal/service/shortener.go:63-94 | from every state with room for two rows and none for the URL, two overlapping fault-free calls reach two unexpired rows for it under different links |
| Rescan.Settled | internal/scanner/rescan.go:69-82 | after an uncancelled cycle each fetched row has its own scan result and every other row is untouched |
| Rescan.CycleCount | internal/repository/mysql/url_repository.go:115-121 | one cycle of definitive answers takes a backlog of n to max(0, n - 100) |
| Rescan.BacklogDrains | internal/scanner/rescan.go:56-75 | k such cycles take it to max(0, n - 100 k) |
| Rescan.InconclusiveCycle | internal/scanner/rescan.go:77-82 | a cycle of unverified answers changes no row |
| Rescan.OldestFirst | internal/repository/mysql/url_repository.go:115-121 | a fetched row has fewer than a hundred strictly older rows in the backlog, all fetched with it |
| Rescan.FetchReaches | internal/repository/mysql/url_repository.go:115-121 | the fetch may return a row if and only if it is in the backlog behind fewer than a hundred strictly older rows |
| Rescan.UndecidedCycles | internal/scanner/rescan.go:56-82 | any number of cycles that decide nothing leave the table as it was |
| Rescan.StarvationTheorem | internal/scanner/rescan.go:56-75 | while the scanner cannot decide, cycles at given times can try a row if and only if at one of those times it is in the backlog behind fewer than a hundred older rows |
| Rescan.LateLinksStarve | internal/scanner/rescan.go:56-75 | in a well-formed table of n undecidable links, cycles can try exactly the first hundred, in runs of any length |
| ScanCache.CachedScanner.Scan | internal/scanner/cache.go:27-50 | asks the inner scanner exactly on a failed read or a stale entry, and stores exactly what it then answers |
| ScanCache.ScanRuns | internal/scanner/cache.go:27-50 | one Scan with any faults and nothing in between is a run of the interleaved machine with the entries and the inner answer that the object's contract states |
| ScanCache.AnswersAreRecent | internal/scanner/cache.go:27-55 | under any interleaving and any cache failures each answer was given by the inner scanner for that URL less than one TTL plus the write delay ago |
| DispatcherMachine.Conservation | internal/analytics/dispatcher.go:55-62 | after every interleaving the submitted events are, as multisets, processed + held + queued + dropped + panicked; the queue is within capacity; received then queued is acceptance order |
| DispatcherMachine.DroppedOnlyWhenFull | internal/analytics/dispatcher.go:55-62 | a submission to an open channel is dropped if and only if the buffer is full, and otherwise joins its end |
| DispatcherMachine.InvNext | internal/analytics/dispatcher.go:115-133 | each step keeps conservation, order, and the place of each accepted event: queued, in one worker's hands at the matching point of its call trace, or finished |
| DispatcherMachine.DoneMeansDrained | internal/analytics/dispatcher.go:80-101 | when all workers are done after close, the queue is empty and each accepted event had exactly one Insert then one UpdateLastAccessed, errors or not, if and only if there is a worker or nothing was accepted |
| DispatcherMachine.DrainStep | internal/analytics/dispatcher.go:115-133 | after close each worker step lowers the measure by exactly one and nothing else changes it |
| DispatcherMachine.DrainTerminates | internal/analytics/dispatcher.go:80-133 | after close every interleaving has a bounded number of worker steps, is stuck only when all workers have exited, and with a worker takes exactly the measure's number of steps to get there |
| Dispatcher.Dispatcher.constructor | internal/analytics/dispatcher.go:39-46 | an empty open buffer, no workers yet |
| Dispatcher.Dispatcher.Run | internal/analytics/dispatcher.go:64-78 | starts exactly numWorkers workers, all idle, and leaves the buffer alone |
| Dispatcher.Dispatcher.Submit | internal/analytics/dispatcher.go:55-62 | one Submit step of the machine; a send on a closed channel is reported as the panic it is |
| Dispatcher.Dispatcher.CloseEvents | internal/analytics/dispatcher.go:82 | closes the channel and changes nothing else, as one Close step of the machine |
| Dispatcher.Dispatcher.Serve | internal/analytics/dispatcher.go:117-132 | one pass of the worker body is the four machine steps receive, insert, update, count, whatever the calls return |
| Dispatcher.Dispatcher.Worker | internal/analytics/dispatcher.go:115-133 | a worker left alone after close empties the buffer, makes both calls for every job in order and exits, as a legal run of the machine |
| RateLimit.Entry.Touch | internal/middleware/ratelimit.go:22-26 | marks the entry seen and leaves the bucket |
| RateLimit.Entry.Allow | internal/middleware/ratelimit.go:93 | one token bucket decision and its effect |
| RateLimit.RateLimiter.GetEntry | internal/middleware/ratelimit.go:108-124 | finds the entry, or stores a full one, and marks it seen; other entries unchanged |
| RateLimit.RateLimiter.Handle | internal/middleware/ratelimit.go:89-105 | the decision and new map of the specification |
| RateLimit.RateLimiter.CheckKey | internal/middleware/ratelimit.go:73-78 | removes one key exactly when it was last seen before the cutoff |
| RateLimit.RateLimiter.Cleanup | internal/middleware/ratelimit.go:71-80 | left alone, removes exactly the entries idle for more than ten minutes |
| RateLimit.ChecksAreCleanup | internal/middleware/ratelimit.go:71-80 | the checks of all keys in any order, with nothing in between, are a cleanup |
| RateLimit.SaneAfter | internal/middleware/ratelimit.go:89-124 | on every timed run tokens stay between 0 and burst and no bucket is newer than its entry's last sighting |
| RateLimit.EvictionTheorem | internal/middleware/ratelimit.go:71-80 | over all timed runs in which requests and single-key checks with cutoffs at least ten minutes old interleave freely, evicting and never-evicting limiters admit the same requests if and only if burst <= rps * 600 |
| RateLimit.WindowTheorem | internal/middleware/ratelimit.go:90-124 | every window of length W of every run admits at most burst + rps * W requests of an IP, again if and only if burst <= rps * 600 |
| RateLimit.WiringRefills | cmd/api/main.go:126-129 | a limiter of n requests a minute with burst n meets that condition, and earns a token within 60 s if and only if n is not zero |
| RateLimit.RetryTheorem | internal/middleware/ratelimit.go:93-101 | for every limiter: a client silent for the advertised 60 s is then admitted on every run, whatever other clients and cleanups do, if and only if burst >= 1 and rps * 60 >= 1 (section 10.2.3 of RFC 9110) |

## Left out

- HTTP handlers, DTOs, CORS, security headers, logging, request ids, panic recovery, health checks, analytics queries
  and configuration loading: plumbing around the parts modelled here.
- The redirect handler's deletion of cache entries whose URL is not http or https: `HitProvenance` shows there are none.
- The VirusTotal client: its answers are nondeterministic here.
- `NormalizeURL`, `ValidateURL` and `url.Parse`: almost all of their work is in libraries, so they are parameters.
- `stripPort`, `net.ParseIP`, X-Forwarded-For and CIDR parsing: an address arrives parsed, or as text that does not parse.
- The internals of `rate.Limiter`: the documented token bucket over exact reals stands for them, without floating point.
- The race between `getEntry` and a concurrent cleanup, in which a request spends a token of an entry just removed.
- SQL and Redis drivers, connection pools and transactions, foreign keys, and the columns `last_accessed_at`,
  `vt_scanned_at`, `vt_positives`, `vt_permalink` and the report's reason, which nothing modelled here reads.
- Whole-second rounding of TIMESTAMP columns, `AddDate` across clock changes, and clocks that differ between hosts.
- The error of a hash longer than VARCHAR(10) for ids of 62^10 - 62^6 and above; `Base62.ColumnWidth` says when it arises.
- Deletion of rows by other programs, and exhaustion of 64-bit ids beyond refusing the insert.
- Zero or negative TTL settings and negative rate limits.
- The 20-second pause between rescanned rows and the tickers of the rescanner, the limiter and the dispatcher.
- The dispatcher's statistics and retention loops, and the timeout branch of `Shutdown`, which gives up waiting without
  touching the queue.
- Base62.Encode: characters stand for bytes, and the result is the buffer's tail without the conversion to a string.
- Dispatcher.Dispatcher.Worker: covers the worker that runs alone; workers that interleave are the runs of
  `DispatcherMachine`, where `InvNext`, `DoneMeansDrained` and `DrainTerminates` apply to them.
- Dispatcher.Dispatcher.Run: the number of workers is a natural number; a negative setting starts none.
- Services.Redirector.Resolve: returns the link's URL, id and status, not a pointer to a shared row; the same holds for
  the other services, whose objects are otherwise updated in place.
- Staleness.BlockedWithin: `delta` is a bound assumed of the run, since the code sets no deadline on a request.
- RateLimit.RateLimiter.Handle: takes the entry lookup and the token decision as one step.
