# Verified model of the scan platform

A Dafny model of the parts of the security-review backend whose behaviour spans many calls, with
proofs over every input or every run. `dafny verify dfyconfig.toml` checks all of it.

| file | what it models |
|---|---|
| `CrawlOrder.dfy`, `Crawler.dfy` | the same-origin crawl of the black-box agent |
| `TimeoutRewriter.dfy`, `Newlines.dfy`, `Remediation.dfy` | the timeout rewrite, on texts and on files |
| `RateLimiter.dfy` | the fixed-window limiter with its in-memory and Redis stores |
| `Base64Url.dfy`, `TokenSearch.dfy`, `PasswordRecord.dfy` | token segments, finding tokens, stored passwords |
| `IsoTimestamp.dfy`, `AssessmentStore.dfy` | the assessments table, its order and its pages |
| `Assessments.dfy`, `ScanLifecycle.dfy`, `AssessmentOperations.dfy`, `AssessmentService.dfy`, `AssessmentOutcomes.dfy`, `AssessmentReport.dfy` | assessments, scan jobs, the service, what its callers get, and its report |
| `AssessmentRuns.dfy`, `AssessmentHistory.dfy`, `AssessmentQuotas.dfy`, `AssessmentAudit.dfy`, `AssessmentTenants.dfy` | whole runs of the service |
| `StatusStream.dfy` | the status stream of a scan job |
| `Plans.dfy`, `Accounts.dfy`, `AccountServices.dfy`, `AccountRuns.dfy`, `AccountOutcomes.dfy` | plans, users, reset tokens, subscriptions, and what callers get |
| `PlatformRuns.dfy` | runs of accounts and assessments together |
| `LogAnalysis.dfy` | the blue-team log correlation |
| `AttackChains.dfy` | the red-team attack chains |

How the pieces fit. An imperative method (the crawl loop, the limiter stores, the services) is
proved against a function or a reference definition; what the program promises is proved of that
function, over all inputs or all runs. What such a function does is also written out without it: against the request, with the
program's literal texts and limits. A run is a sequence of operations, each of which may be
refused. Runs of the assessment service are serial per assessment: every operation saves a whole
record it read earlier, so between an operation's read and its last write no other operation
writes that assessment, while other assessments may be written. Two lemmas show what is lost
without that. In runs, ids are fresh, every queued job is executed at most once, and operations name
the caller's organisation, as the routers do. In runs of the assessment service alone any plan can
be set at any time; `PlatformRuns` ties the plans to billing.

Parameters stand for what lies outside: HTTP responses, URL joining and host extraction, the
clock, agent and clone outcomes, the payment provider's foreign calls, lower-casing, the token
hash, the key derivation, the regular expressions for failed logins and addresses, and fresh ids.
Clock readings of the rate limiter are real numbers: the rounding of floats is not modelled.

Results that differ from what the documentation suggests:

- The remediation is described as behaviour-preserving (`auto_remediation_agent.py:26-31`). As text,
  the `)` that ends a match is the call's own, and the timeout stands in the call's own argument
  list, exactly when the matched arguments have no `(` (`TimeoutRewriter.TimeoutIsOwnArgumentIff`);
  in `requests.get(f(x))` it goes to `f` (`NestedCallGetsTheTimeout`). Brackets are counted as text,
  in string literals and comments too. An empty argument, which Python does not accept, precedes
  the timeout exactly when the arguments end in a comma (`EmptyArgumentIff`): `requests.get(u,)`
  becomes `requests.get(u,, timeout=10)` (`TrailingCommaIsDoubled`).
- Files are read in text mode. A rewritten file keeps the text outside the rewritten calls exactly
  when its only `\r` are in whitespace that the rewrite strips (`Remediation.FileKeepsTextIff`); a
  Windows line end is lost (`Remediation.WindowsLineEndIsLost`).
- The wait a refusal carries is rounded down, so waiting just that long is not always enough:
  `RateLimiter.WaitingOutARefusal` says exactly when it is, `WaitingAsToldCanFail` is an instance,
  and `RedisWaitingAsTold` is the same for the Redis store. That store tells a caller with less than
  half a second left to wait the whole window (`ShortRestWaitsAWholeWindow`).
- A segment can have several spellings that decode alike (`Base64Url.ReencodesIffCanonical`), as
  `QQ` and `QR` do (`TwoSpellingsOfOneByte`).
- The inspector does not recognise a token by every JSON header (`Base64Url.SegmentStartsWithEyJIff`):
  not by `{}` (`EmptyHeaderIsNotRecognised`).

## Model

| member | source | states |
|---|---|---|
| `Crawler.Crawl` | backend/src/security_review/infrastructure/scanners/black_box_agent.py:201-230 | the loop returns the first fifteen fetchable URLs of the round-by-round order (`IsCrawl`), ends by the measure (15 minus pages, queue length), requests no URL twice and stays on the start URL's origin. In terms of responses, joined `href`s and hosts alone: the pages are distinct, reachable through pages whose content type contains `html`, nearest first, and all there are below fifteen; a reachable page is missed only for fifteen no farther away |
| `Crawler.LinksAreHtmlHrefs` | backend/src/security_review/infrastructure/scanners/black_box_agent.py:222-228 | a page links to exactly the joined `href`s of the start URL's host, if it answers with a content type that contains `html` |
| `Crawler.LinksKeepHrefOrder` | backend/src/security_review/infrastructure/scanners/black_box_agent.py:225-228 | the links of such a page are these, in the order of its `href`s, repetitions kept |
| `Crawler.CrawlInWebTerms` | backend/src/security_review/infrastructure/scanners/black_box_agent.py:201-230 | what the crawl returns is nearest first, and nothing nearer is missed, in walks along those links of the web |
| `Crawler.BelowCapInWebTerms` | backend/src/security_review/infrastructure/scanners/black_box_agent.py:208-230 | fewer than fifteen pages are exactly what can be walked to and fetched |
| `CrawlOrder.LevelIsDistance` | backend/src/security_review/infrastructure/scanners/black_box_agent.py:208-228 | round n of the reference order finds exactly the URLs at shortest link distance n |
| `CrawlOrder.OrderIsWithin` | backend/src/security_review/infrastructure/scanners/black_box_agent.py:208-228 | rounds 0 to n find exactly the URLs within n links |
| `CrawlOrder.CrawlIsNearestFirst` | backend/src/security_review/infrastructure/scanners/black_box_agent.py:201-230 | at most fifteen distinct reachable pages, in non-decreasing distance; a reachable fetchable URL is missing only if fifteen pages no farther away were returned |
| `CrawlOrder.CrawlBelowCapIsComplete` | backend/src/security_review/infrastructure/scanners/black_box_agent.py:208-230 | fewer than fifteen pages are exactly the reachable URLs that can be fetched |
| `CrawlOrder.CrawlIsUnique` | backend/src/security_review/infrastructure/scanners/black_box_agent.py:201-230 | the web and the start URL determine the pages and their order |
| `Crawler.CrawlStaysOnOrigin` | backend/src/security_review/infrastructure/scanners/black_box_agent.py:203-228 | every page has the start URL's host |
| `Crawler.Enqueue` | backend/src/security_review/infrastructure/scanners/black_box_agent.py:225-228 | the loop over links appends exactly the same-origin ones not yet visited, in order |
| `TimeoutRewriter.RescanIsStable` | backend/src/security_review/infrastructure/scanners/auto_remediation_agent.py:14-17 | scanning a rewritten text finds the source's pieces, with the calls rewritten |
| `TimeoutRewriter.PatchIsIdempotent` | backend/src/security_review/infrastructure/scanners/auto_remediation_agent.py:126-134 | rewriting a rewritten text changes nothing |
| `TimeoutRewriter.PatchedCallsAreTimed` | backend/src/security_review/infrastructure/scanners/auto_remediation_agent.py:126-134 | after the rewrite every call the scan finds mentions a timeout |
| `TimeoutRewriter.PatchOnlyAddsTimeouts` | backend/src/security_review/infrastructure/scanners/auto_remediation_agent.py:126-134 | same calls with the same methods in the same order; everything else is kept character by character, and an untimed call loses only trailing whitespace and gains `timeout=10`, after `, ` unless its arguments are whitespace only |
| `TimeoutRewriter.AddTimeoutText` | backend/src/security_review/infrastructure/scanners/auto_remediation_agent.py:128-132 | untimed arguments of whitespace only become exactly `timeout=10`; any others become the arguments without trailing whitespace, followed by `, timeout=10` |
| `TimeoutRewriter.EmptyCallGetsTheTimeout` | backend/src/security_review/infrastructure/scanners/auto_remediation_agent.py:130-132 | `requests.get()` becomes `requests.get(timeout=10)` |
| `TimeoutRewriter.MatchMeans` | backend/src/security_review/infrastructure/scanners/auto_remediation_agent.py:14-17 | a call matches iff the text starts with `requests.`, one of the seven methods, `(`, arguments without `)`, and `)` |
| `TimeoutRewriter.ScanIsLeftmost` | backend/src/security_review/infrastructure/scanners/auto_remediation_agent.py:134 | matches are taken leftmost and without overlap |
| `TimeoutRewriter.SpacesAre` | backend/src/security_review/infrastructure/scanners/auto_remediation_agent.py:130 | what is stripped is the whitespace of Python's `str`, character by character |
| `TimeoutRewriter.PatchChangesIff` | backend/src/security_review/infrastructure/scanners/auto_remediation_agent.py:134-136 | the text changes exactly when some matched call does not mention a timeout |
| `TimeoutRewriter.MatchedCloseIsOwnIff` | backend/src/security_review/infrastructure/scanners/auto_remediation_agent.py:14-17 | for every call the scan finds, the `)` of the match closes the call's own argument list iff its arguments have no `(` |
| `TimeoutRewriter.TimeoutIsOwnArgumentIff` | backend/src/security_review/infrastructure/scanners/auto_remediation_agent.py:126-134 | in the rewritten text the timeout given to a call stands in the call's own argument list, in no bracket opened in it, iff the arguments had no `(` |
| `TimeoutRewriter.NestedCallGetsTheTimeout` | backend/src/security_review/infrastructure/scanners/auto_remediation_agent.py:14-17 | `requests.get(f(x))` becomes `requests.get(f(x, timeout=10))` |
| `TimeoutRewriter.EmptyArgumentIff` | backend/src/security_review/infrastructure/scanners/auto_remediation_agent.py:130-132 | an empty argument, at the first place or after a comma, precedes the inserted timeout iff the call's arguments end in a comma, whitespace aside |
| `TimeoutRewriter.TrailingCommaIsDoubled` | backend/src/security_review/infrastructure/scanners/auto_remediation_agent.py:130-132 | `requests.get(u,)` becomes `requests.get(u,, timeout=10)` |
| `TimeoutRewriter.RenderScan` | backend/src/security_review/infrastructure/scanners/auto_remediation_agent.py:14-17 | the pieces of a scan spell the scanned text, and a matched call has a known method and no `)` in its arguments |
| `TimeoutRewriter.NoNewMatch` | backend/src/security_review/infrastructure/scanners/auto_remediation_agent.py:14-17 | rewriting what follows creates no match where there was none |
| `Remediation.PatchedTwice` | backend/src/security_review/infrastructure/scanners/auto_remediation_agent.py:120-139 | a file is changed by its first patch only, and exactly when a call in it lacks a timeout |
| `Newlines.ScanOfNewlines` | backend/src/security_review/infrastructure/scanners/auto_remediation_agent.py:121 | scanning what text mode reads finds the file's own pieces with their newlines translated |
| `Newlines.LineEndsAreRead` | backend/src/security_review/infrastructure/scanners/auto_remediation_agent.py:121 | text mode reads `\r\n` and a lone `\r` as one newline each |
| `Remediation.EvidenceNamesPath` | backend/src/security_review/infrastructure/scanners/auto_remediation_agent.py:108-111 | evidence names the path before its last colon, or the whole of it, whitespace around it aside; blank evidence names none |
| `Remediation.FileKeepsTextIff` | backend/src/security_review/infrastructure/scanners/auto_remediation_agent.py:120-139 | a file, too, only gains timeouts iff nothing is rewritten or no `\r` is in a plain piece, a timed call, or an untimed call's arguments without trailing whitespace |
| `Remediation.WindowsLineEndIsLost` | backend/src/security_review/infrastructure/scanners/auto_remediation_agent.py:120-139 | `requests.get(u)` with a Windows line end is written back with the timeout and a bare newline |
| `Remediation.Workspace.PatchFile` | backend/src/security_review/infrastructure/scanners/auto_remediation_agent.py:120-139 | the file becomes its patched form and the result says whether it changed |
| `Remediation.Workspace.ApplyTimeoutFixes` | backend/src/security_review/infrastructure/scanners/auto_remediation_agent.py:105-117 | each readable file some finding names is patched once, whatever the order and repetition of findings; the result is the set of files that changed |
| `RateLimiter.InMemoryRateLimiterBackend.Increment` | backend/src/security_review/api/rate_limiter.py:43-53 | the key's window is counted on or replaced, no other key is touched |
| `RateLimiter.RedisRateLimiterBackend.Increment` | backend/src/security_review/api/rate_limiter.py:70-77 | INCR, EXPIRE on the first count, TTL: the stored counter, the count and the wait |
| `RateLimiter.FixedWindowRateLimiter.Check` | backend/src/security_review/api/rate_limiter.py:121-129 | for either store: passes iff the count told is within the limit, a refusal carries the wait told, and the attempt is counted either way |
| `RateLimiter.OpenedIsGreedy` | backend/src/security_review/api/rate_limiter.py:46-50 | for every clock order the windows are the greedily chosen ones, their starts at least a window apart |
| `RateLimiter.GreedyWindowsAreUnique` | backend/src/security_review/api/rate_limiter.py:46-50 | a history of attempts determines its greedy windows |
| `RateLimiter.MemoryCountsOpenWindow` | backend/src/security_review/api/rate_limiter.py:46-53 | for every clock order the store holds the open window's start and number of attempts, and that many passed, up to the limit |
| `RateLimiter.EveryWindowPassesAtMostMax` | backend/src/security_review/api/rate_limiter.py:121-129 | for every clock order each window lets through at most the limit |
| `RateLimiter.IntervalPassesAtMost` | backend/src/security_review/api/rate_limiter.py:43-53 | with clock readings of the key stale by at most n windows' lengths, at most n + 2 times the limit passes in any half-open interval of one window's length |
| `RateLimiter.IntervalPassesAtMostTwice` | backend/src/security_review/api/rate_limiter.py:43-53 | with the key's own clock readings in order, at most twice the limit passes in such an interval |
| `RateLimiter.StaleClocksLoseTheIntervalBound` | backend/src/security_review/api/rate_limiter.py:44-50 | with clock readings out of order any number can pass in one second at two per second |
| `RateLimiter.RedisSimulatesMemory` | backend/src/security_review/api/rate_limiter.py:70-77 | Redis holds the in-memory window with expiry at its start plus the window's length, or nothing once that has passed |
| `RateLimiter.BackendsTellTheSameCounts` | backend/src/security_review/api/rate_limiter.py:43-77 | both stores tell every attempt the same count, its place in its greedy window, whenever the server deletes expired keys |
| `RateLimiter.KeysAreIndependent` | backend/src/security_review/api/rate_limiter.py:46-50 | a key's window depends on its own attempts only |
| `RateLimiter.FullKeysDiffer` | backend/src/security_review/api/rate_limiter.py:71 | of two prefixes of which neither starts the other no two keys give one full key, and one prefix gives each key its own |
| `RateLimiter.ProgramPrefixesAreApart` | backend/src/security_review/api/rate_limiter.py:139-153 | the prefixes of the login, signup and forgotten-password limiters are such |
| `RateLimiter.LimitersAreIndependent` | backend/src/security_review/api/rate_limiter.py:70-77 | over any attempts at several limiters on one server, whenever it deletes expired keys, a limiter's stored counters and the counts it tells are those of its own attempts alone |
| `RateLimiter.RetryAfterBounds` | backend/src/security_review/api/rate_limiter.py:52-53 | the wait is between 1 and the window's length, more than the time left minus one second, and not more than the time left unless it is 1 |
| `RateLimiter.WaitingOutARefusal` | backend/src/security_review/api/rate_limiter.py:43-53 | waiting one second longer than told always opens a new window; waiting exactly as told does so iff the time left was whole seconds or at most one |
| `RateLimiter.WaitingAsToldCanFail` | backend/src/security_review/api/rate_limiter.py:52-53 | refused with 1.5 seconds left and told to wait 1, a caller that does so is refused again |
| `RateLimiter.RedisRetryAfterBounds` | backend/src/security_review/api/rate_limiter.py:75-77 | the Redis wait is between 1 and the window's length: the whole window with less than half a second left, else the time left rounded to the nearest second |
| `RateLimiter.RedisWaitingAsTold` | backend/src/security_review/api/rate_limiter.py:70-77 | with Redis, waiting exactly as told opens a new window iff less than half a second was left or rounding did not shorten the wait |
| `Base64Url.MachineIsBlocks` | backend/src/security_review/infrastructure/scanners/api_security_agent.py:364-366 | on text without foreign characters the decoding machine is decoding by blocks of four |
| `Base64Url.EncodeSegmentIsSegment` | backend/src/security_review/infrastructure/scanners/api_security_agent.py:369-371 | encoding and then stripping `=` is encoding without padding |
| `Base64Url.AlphabetMeans` | backend/src/security_review/infrastructure/scanners/api_security_agent.py:363-371 | symbols are the literal alphabet of RFC 4648, table 2; the decoder reads each as its place, `+` and `/` as 62 and 63, and nothing else |
| `Base64Url.EncodingMeans` | backend/src/security_review/infrastructure/scanners/api_security_agent.py:371 | bytes are encoded three by three; one or two at the end are filled up with zero bytes and `=` |
| `Base64Url.GroupMeans` | backend/src/security_review/infrastructure/scanners/api_security_agent.py:371 | the four symbols of three bytes are their 24 bits, six at a time, most significant first |
| `Base64Url.PaddingMeans` | backend/src/security_review/infrastructure/scanners/api_security_agent.py:365 | a segment is padded with `=` to a multiple of four |
| `Base64Url.SegmentRoundTrip` | backend/src/security_review/infrastructure/scanners/api_security_agent.py:363-371 | every byte string survives encoding, stripping and decoding; the segment is alphabet characters only and its length is never 1 modulo 4 |
| `Base64Url.DecodesIff` | backend/src/security_review/infrastructure/scanners/api_security_agent.py:364-366 | a segment of alphabet characters decodes exactly when its length is not 1 modulo 4 |
| `Base64Url.ReencodesIffCanonical` | backend/src/security_review/infrastructure/scanners/api_security_agent.py:364-371 | among segments that decode, exactly those with zero unused bits are what encoding produces |
| `Base64Url.TwoSpellingsOfOneByte` | backend/src/security_review/infrastructure/scanners/api_security_agent.py:364-371 | `QQ` and `QR` decode alike and only `QQ` is what encoding produces |
| `Base64Url.CraftedTokenRoundTrip` | backend/src/security_review/infrastructure/scanners/api_security_agent.py:321-327 | a crafted token has exactly three parts, the last empty, and the first two decode to header and payload |
| `Base64Url.SegmentStartsWithEyJIff` | backend/src/security_review/infrastructure/scanners/api_security_agent.py:12 | a segment starts with `eyJ`, as the inspector wants of a token, iff the bytes start with `{"` and a byte from 64 to 127, which excludes `{}` |
| `Base64Url.EmptyHeaderIsNotRecognised` | backend/src/security_review/infrastructure/scanners/api_security_agent.py:12 | the segment of `{}` does not start with `eyJ` |
| `TokenSearch.TokenIsFoundIff` | backend/src/security_review/infrastructure/scanners/api_security_agent.py:12 | a token after text that ends in neither a class character nor a dot is what the pattern's search finds iff that text has no match of its own |
| `TokenSearch.FoundTokenDecodes` | backend/src/security_review/infrastructure/scanners/api_security_agent.py:315-327 | whatever follows the token, what is found splits into three parts and the first two decode to header and payload |
| `TokenSearch.MatchOfToken` | backend/src/security_review/infrastructure/scanners/api_security_agent.py:12 | text that starts with `eyJ`, a non-empty run, a dot, a non-empty run, a dot and a run that is as long as it can be is matched so far |
| `TokenSearch.TokenOfMatch` | backend/src/security_review/infrastructure/scanners/api_security_agent.py:12 | every match has that form |
| `TokenSearch.ClassMeans` | backend/src/security_review/infrastructure/scanners/api_security_agent.py:12 | the class is the literal base64url alphabet and `=` |
| `TokenSearch.SearchIsLeftmost` | backend/src/security_review/infrastructure/scanners/api_security_agent.py:315 | the search finds the leftmost match, or none if there is none |
| `PasswordRecord.RecordRoundTrip` | backend/src/security_review/infrastructure/security/password_hasher.py:15-20 | a record splits into its four fields, which parse back to what was stored |
| `PasswordRecord.RecordSpelled` | backend/src/security_review/infrastructure/security/password_hasher.py:12-15 | a record is `pbkdf2_sha256$390000$`, the salt, `$` and the key derived with 390000 iterations |
| `PasswordRecord.HexMeans` | backend/src/security_review/infrastructure/security/password_hasher.py:15 | bytes are written as two lower-case hexadecimal digits each |
| `PasswordRecord.VerifyAcceptsSameKey` | backend/src/security_review/infrastructure/security/password_hasher.py:12-31 | a stored record accepts a password exactly when the derived keys are equal |
| `IsoTimestamp.IsoOrder` | backend/src/security_review/infrastructure/persistence/sqlite_assessment_repository.py:74-75 | ordering UTC ISO texts, with six fraction digits or none, is ordering instants |
| `IsoTimestamp.IsoIsInjective` | backend/src/security_review/infrastructure/persistence/sqlite_assessment_repository.py:74-75 | different instants have different texts |
| `IsoTimestamp.IsoMeans` | backend/src/security_review/infrastructure/persistence/sqlite_assessment_repository.py:74-75 | the text has each field in zero-padded decimal at its place, six digits of microseconds exactly if there are any, and the offset |
| `IsoTimestamp.TextLessMeans` | backend/src/security_review/infrastructure/persistence/sqlite_assessment_repository.py:105 | text is ordered by its first difference, a proper prefix first |
| `Assessments.Assessment.StartAnalysis` | backend/src/security_review/domain/assessment/models.py:137-145 | allowed exactly for new and completed assessments, changing status and update time only |
| `AssessmentStore.OrderedIsListing` | backend/src/security_review/infrastructure/persistence/sqlite_assessment_repository.py:94-113 | a listing has each selected row once, newest first with ties by id |
| `AssessmentStore.PagesAreTheListing` | backend/src/security_review/infrastructure/persistence/sqlite_assessment_repository.py:100-124 | for every page size the pages concatenate to the listing, whose length is the count |
| `AssessmentStore.PageMeans` | backend/src/security_review/infrastructure/persistence/sqlite_assessment_repository.py:100-113 | a page is the listing from the offset on, up to the limit; without a limit the offset is not applied |
| `AssessmentStore.SaveKeepsColumnsIff` | backend/src/security_review/infrastructure/persistence/sqlite_assessment_repository.py:52-77 | saving keeps columns and payload in agreement exactly when it moves no stored assessment to another organisation or creation time |
| `AssessmentStore.ListedIffGettable` | backend/src/security_review/infrastructure/persistence/sqlite_assessment_repository.py:79-113 | an assessment is listed for an organisation exactly when it can be looked up for it, with the same payload |
| `AssessmentStore.ListingIsNewestFirst` | backend/src/security_review/infrastructure/persistence/sqlite_assessment_repository.py:100-113 | a listing is ordered by creation instant, newest first, then by id |
| `AssessmentStore.SavedIsFound` | backend/src/security_review/infrastructure/persistence/sqlite_assessment_repository.py:52-92 | after a save (`AssessmentRepository.Save` writes this table) the record is found by its id for its organisation only, other lookups answer as before, and a row that was there keeps its organisation and creation columns |
| `AssessmentStore.AssessmentRepository.Get` | backend/src/security_review/infrastructure/persistence/sqlite_assessment_repository.py:79-92 | a fresh copy of the payload, or the same error for a missing and a foreign id |
| `AssessmentStore.AssessmentRepository.Delete` | backend/src/security_review/infrastructure/persistence/sqlite_assessment_repository.py:126-131 | removes exactly the row that could be looked up |
| `AssessmentStore.AssessmentRepository.Count` | backend/src/security_review/infrastructure/persistence/sqlite_assessment_repository.py:115-124 | the length of the listing |
| `AssessmentService.AssessmentService.CreateAssessment` | backend/src/security_review/application/assessment_service.py:71-75 | refuses at the plan limit, else saves a new record |
| `AssessmentService.AssessmentService.DeleteAssessment` | backend/src/security_review/application/assessment_service.py:93-96 | removes the organisation's assessment |
| `AssessmentService.AssessmentService.CreateScanJob` | backend/src/security_review/application/assessment_service.py:174-224 | quota, lookup, status, target, consent and save, in that order; a refusal changes nothing |
| `AssessmentOutcomes.QueuedJobIsWhatWasAskedFor` | backend/src/security_review/application/assessment_service.py:184-224 | a successful request appends the pending job asked for, field by field: agent, webhook, the target given or the ready clone's path, and if confirmed the confirmer or `unknown`; a consent with the same agent, target and confirmer is logged iff confirmed |
| `AssessmentOutcomes.JobRequestIsAnswered` | backend/src/security_review/application/assessment_service.py:174-204 | refused iff out of room (20 jobs on Free, 1000 on Pro, never on Enterprise), or the assessment is missing or foreign, or the repository is missing or not ready, in this order |
| `AssessmentOutcomes.ConsentsAreAskedFor` | backend/src/security_review/application/assessment_service.py:206-219 | over every serial run each consent entry comes from a step that asked for a confirmed job with that confirmer, organisation, assessment, agent, target and time |
| `AssessmentOutcomes.AssessmentRequestIsAnswered` | backend/src/security_review/application/billing_service.py:109-120 | an assessment is created exactly while the organisation has fewer than 3 on Free, fewer than 50 on Pro, always on Enterprise |
| `AssessmentOutcomes.ScanOutcome` | backend/src/security_review/application/assessment_service.py:239-302 | a scan is stored as running with its start, then as completed with its findings appended or as failed with the message, with its end; nothing else changes but status and update time |
| `AssessmentOutcomes.TrivyJobIsWhatWasAskedFor` | backend/src/security_review/application/assessment_service.py:395-413 | a synchronous scan appends a running, unconfirmed Trivy job on the given target |
| `AssessmentOutcomes.CloneOutcome` | backend/src/security_review/application/assessment_service.py:148-172 | what a clone leaves in its repository: ready with path and commit, failed with the message, or as it was |
| `AssessmentOutcomes.CloneDecidesJobs` | backend/src/security_review/application/assessment_service.py:187-199 | after a clone a job that names the repository scans the clone's path; after a clone that failed it is refused |
| `AssessmentOutcomes.DeletedRepositoryIsGone` | backend/src/security_review/application/assessment_service.py:98-106 | deleting takes out the first repository with the id and keeps the others in order |
| `AssessmentService.AssessmentService.ExecuteScanJob` | backend/src/security_review/application/assessment_service.py:239-302 | two saves of one copy: running, then finished and reconciled |
| `AssessmentService.AssessmentService.RunTrivyScan` | backend/src/security_review/application/assessment_service.py:395-434 | as above on a job added without quota check or status change |
| `AssessmentService.AssessmentService.IngestRepository` | backend/src/security_review/application/assessment_service.py:138-146 | appends the repository |
| `AssessmentService.AssessmentService.RunRepositoryIngestion` | backend/src/security_review/application/assessment_service.py:148-172 | two saves of one copy: cloning, then the outcome, also when cloning raises |
| `AssessmentService.AssessmentService.DeleteRepository` | backend/src/security_review/application/assessment_service.py:98-106 | removes the first repository with the id |
| `ScanLifecycle.ReconciledIsTruthful` | backend/src/security_review/application/assessment_service.py:363-376 | reconciling a non-empty job list makes the status truthful |
| `ScanLifecycle.ReconciledMeans` | backend/src/security_review/application/assessment_service.py:363-376 | for every job list, by iff: ANALYZING with an open job, else FAILED with a failed one, COMPLETED with completed ones only, CREATED without jobs |
| `ScanLifecycle.QueueKeepsGood` | backend/src/security_review/application/assessment_service.py:184-223 | queueing a job keeps status, findings and job log in agreement |
| `ScanLifecycle.FinishKeepsGood` | backend/src/security_review/application/assessment_service.py:259-302 | so does finishing one |
| `ScanLifecycle.FailedStaysUntilTheJobFinishes` | backend/src/security_review/application/assessment_service.py:184-185 | a job queued on a failed assessment leaves it FAILED until the job finishes |
| `ScanLifecycle.TrivyStatusIsTruthfulIff` | backend/src/security_review/application/assessment_service.py:402-413 | while a synchronous Trivy scan runs the stored status is truthful iff it was ANALYZING or FAILED |
| `AssessmentRuns.RunsAreSound` | backend/src/security_review/application/assessment_service.py:54-434 | every serial run keeps every row sound: columns, job ids, status, findings, and the copy of an operation in progress |
| `AssessmentRuns.ColumnsAgreeInRuns` | backend/src/security_review/infrastructure/persistence/sqlite_assessment_repository.py:52-77 | in every serial run the stored columns agree with the payloads, as `ListedIffGettable` and `ListingIsNewestFirst` require |
| `AssessmentHistory.StatusAndFindingsAreTruthful` | backend/src/security_review/application/assessment_service.py:174-376 | between operations CREATED iff no jobs, COMPLETED only if all completed, FAILED only with a failed job, ANALYZING only with an open one; findings are those of completed jobs in finishing order |
| `AssessmentHistory.RunsOnlyGrow` | backend/src/security_review/application/assessment_service.py:254-301 | over any serial run jobs stay and only move on, findings only grow at the end, deleted assessments stay deleted |
| `AssessmentHistory.FailureIsNeverForgotten` | backend/src/security_review/application/assessment_service.py:363-376 | once a job failed its assessment is never COMPLETED again |
| `AssessmentQuotas.JobsUsedAreHeld` | backend/src/security_review/application/billing_service.py:122-130 | the sum over the listing is the number of scan jobs |
| `AssessmentQuotas.UsageStaysWithinPlansHeld` | backend/src/security_review/application/billing_service.py:109-134 | neither the assessments nor the scan jobs, those of synchronous Trivy scans not counted, exceed the largest limit among the plans held |
| `AssessmentQuotas.UncountedAreTrivy` | backend/src/security_review/application/assessment_service.py:395-413 | the jobs not counted are exactly those that a step of the run began as a synchronous scan |
| `AssessmentAudit.ConsentsMatchJobs` | backend/src/security_review/application/assessment_service.py:206-219 | confirmed jobs of stored assessments and consent entries match one to one in job, assessment, organisation, agent, target, confirmer and time |
| `AssessmentAudit.ConsentsAreNeverLost` | backend/src/security_review/infrastructure/persistence/sqlite_audit_log_repository.py:45-65 | the log only grows at the end, whatever is deleted |
| `AssessmentAudit.EveryConsentHadItsJob` | backend/src/security_review/application/assessment_service.py:206-223 | every consent entry, also of a deleted assessment, was written for a confirmed job stored at some moment of the run |
| `AssessmentAudit.EveryConfirmedJobKeepsItsConsent` | backend/src/security_review/application/assessment_service.py:206-223 | every confirmed job stored at any moment of the run has its consent in the final log, in one entry and no other |
| `AssessmentTenants.StepsStayWithTheTenant` | backend/src/security_review/infrastructure/persistence/sqlite_assessment_repository.py:79-92 | a step that changes or removes an assessment is about it and acts for its organisation, or is a background step |
| `AssessmentTenants.JobsAreAskedFor` | backend/src/security_review/application/assessment_service.py:174-224 | every scan job of every serial run was asked for in the name of the assessment's organisation |
| `AssessmentTenants.ScansStayWithTheTenant` | backend/src/security_review/application/assessment_service.py:239-302 | a background scan that changes an assessment runs a job that the assessment's own organisation asked for on it |
| `AssessmentReport.ReportAddsUp` | backend/src/security_review/application/assessment_service.py:436-457 | each severity count is the number of findings of that severity; they sum to the finding count, and the agent breakdown to the number of jobs |
| `AssessmentReport.BreakdownIsOfJobs` | backend/src/security_review/application/assessment_service.py:436-457 | the breakdown names exactly the agents that have a job, with the number of their jobs |
| `AssessmentOperations.FinishLosesJobQueuedMeanwhile` | backend/src/security_review/application/assessment_service.py:239-301 | a job queued while another runs is overwritten when that one finishes, its consent entry staying behind |
| `AssessmentOperations.FinishRestoresDeletedAssessment` | backend/src/security_review/application/assessment_service.py:239-301 | an assessment deleted while a job runs is stored again when the job finishes |
| `StatusStream.StreamStatus` | backend/src/security_review/api/routers/assessment.py:274-297 | the emitted events are the polled snapshots without repetitions, up to the first terminal status, loss of the job or 600 polls |
| `StatusStream.EmittedMeans` | backend/src/security_review/api/routers/assessment.py:274-297 | the events are, in order, exactly the polls that read something else than the poll before, a lost job being told once and last |
| `StatusStream.EmittedAdvances` | backend/src/security_review/api/routers/assessment.py:279-294 | for a job that only moves on, data events strictly advance in status |
| `StatusStream.StreamOfRun` | backend/src/security_review/api/routers/assessment.py:263-297 | polling any serial run gives at most three data events in strictly advancing status |
| `AccountServices.AuthService.Signup` | backend/src/security_review/application/auth_service.py:66-81 | refuses a registered address, else creates organisation and owner |
| `AccountServices.AuthService.RequestPasswordReset` | backend/src/security_review/application/auth_service.py:102-116 | adds a token for the user of the address, silently nothing if there is none |
| `AccountServices.AuthService.ResetPassword` | backend/src/security_review/application/auth_service.py:118-124 | sets the password of the token's user and marks the token used, or refuses |
| `AccountServices.AccountDatabase.ResolveValidUserId` | backend/src/security_review/infrastructure/persistence/sqlite_password_reset_repository.py:64-89 | the loop returns the user of the first unused, unexpired row with the hash |
| `AccountServices.AccountDatabase.UpdateOrganizationStripeIds` | backend/src/security_review/infrastructure/persistence/sqlite_user_repository.py:107-134 | the two statements clear the customer id elsewhere and write both ids here |
| `AccountServices.TeamService.InviteMember` | backend/src/security_review/application/team_service.py:41-72 | adds the member and a token, or refuses a registered address |
| `AccountServices.TeamService.UpdateMemberRole` | backend/src/security_review/application/team_service.py:74-81 | refuses strangers and the demotion of the last owner |
| `AccountServices.TeamService.RemoveMember` | backend/src/security_review/application/team_service.py:83-89 | refuses strangers and the removal of the last owner |
| `AccountServices.BillingService.ChangePlan` | backend/src/security_review/application/billing_service.py:39-76 | the plan and ids change only if the provider activates at once |
| `AccountServices.BillingService.HandleStripeWebhook` | backend/src/security_review/application/billing_service.py:78-97 | the outcome is applied to the organisation it names or to the holder of its customer id |
| `AccountOutcomes.CheckoutGivesThePlanBought` | backend/src/security_review/infrastructure/billing/payment_provider.py:219-230 | a completed checkout that names a stored organisation succeeds and leaves exactly it on the plan named, or Pro, with the event's customer and subscription; any other loses at most that customer id |
| `AccountOutcomes.PlanBoughtStays` | backend/src/security_review/application/billing_service.py:78-97 | over runs, an organisation is on the plan of its completed checkout as long as no later step sets its plan |
| `AccountOutcomes.OtherEventsChangeNothing` | backend/src/security_review/infrastructure/billing/payment_provider.py:216-239 | events about no organisation change nothing, and a checkout whose fields do not parse raises |
| `AccountOutcomes.PlanRequestIsAnswered` | backend/src/security_review/application/billing_service.py:53-76 | a switch to Free is immediate, clears the subscription and keeps the customer; with Stripe, Pro changes nothing before the checkout and Enterprise is refused; other organisations stay as they are |
| `AccountOutcomes.SignupIsAnswered` | backend/src/security_review/application/auth_service.py:66-81 | refused iff some user has the lower-cased address; else a Free organisation without subscription and its owner |
| `AccountOutcomes.InvitationIsAnswered` | backend/src/security_review/application/team_service.py:41-72 | refused likewise; else the member has the role asked for, and the token sent resolves to the member for thirty minutes and no longer |
| `AccountOutcomes.RoleChangeIsAnswered` | backend/src/security_review/application/team_service.py:74-102 | the member gets the role asked for, unless it is the demotion of an owner where no other user is one |
| `AccountOutcomes.RemovalIsAnswered` | backend/src/security_review/application/team_service.py:83-102 | exactly the member is removed, unless it is an owner where no other user is one |
| `AccountOutcomes.ResetRequestIsAnswered` | backend/src/security_review/application/auth_service.py:102-116 | a request for a known address yields a token that resolves to its user for thirty minutes and no longer; for an unknown one nothing changes |
| `AccountOutcomes.ResetIsAnswered` | backend/src/security_review/application/auth_service.py:118-124 | a token that resolves sets its user's password and no other, and never resolves again, while other tokens resolve as before; any other token is refused |
| `AccountOutcomes.ResolveMeans` | backend/src/security_review/infrastructure/persistence/sqlite_password_reset_repository.py:64-89 | a hash resolves to the user of the first row that has it, is unused and not past its expiry |
| `AccountRuns.UsersStaySound` | backend/src/security_review/application/team_service.py:74-102 | no step gives two users one email or leaves an organisation without owner |
| `AccountRuns.OwnersAndEmailsAreKept` | backend/src/security_review/application/team_service.py:97-102 | in every run each signed-up organisation has an owner and lower-cased emails are unique |
| `AccountRuns.CustomerIdsAreDistinct` | backend/src/security_review/infrastructure/persistence/sqlite_user_repository.py:107-134 | in every run no two organisations hold the same customer id |
| `AccountRuns.PlanChangesOnlyWhenSet` | backend/src/security_review/application/billing_service.py:53-97 | an existing organisation's plan changes only in a subscription or webhook step that sets the plan of this organisation |
| `AccountRuns.PaidPlanHasItsCheckout` | backend/src/security_review/infrastructure/billing/payment_provider.py:154-238 | with Stripe, the last step that set the plan of an organisation on a paid plan was its own completed checkout |
| `AccountRuns.DeletionReturnsHolderToFree` | backend/src/security_review/infrastructure/billing/payment_provider.py:231-236 | a subscription deletion returns the holder of the customer id to Free without subscription and changes no other organisation |
| `AccountRuns.PaidPlanOutlivesDeletionIff` | backend/src/security_review/infrastructure/persistence/sqlite_user_repository.py:107-134 | with Stripe a paid plan survives the deletion of the customer its last checkout carried iff a later checkout named another organisation with that customer |
| `AccountRuns.DeadTokensStayDead` | backend/src/security_review/infrastructure/persistence/sqlite_password_reset_repository.py:64-99 | an issued token that stops resolving never resolves again |
| `AccountRuns.TokensResetOnce` | backend/src/security_review/application/auth_service.py:118-124 | a token resets a password at most once in a run |
| `AccountRuns.PasswordsChangeByOwnTokenOnly` | backend/src/security_review/application/auth_service.py:102-124 | a user's password changes only by a reset with a token issued to that user, by invitation or on request, at most thirty minutes before |
| `PlatformRuns.FreeLimitsWithoutCheckout` | backend/src/security_review/application/billing_service.py:109-134 | with Stripe an organisation that never completed a checkout of its own holds at most 3 assessments and 20 scan jobs, those of synchronous Trivy scans not counted |
| `LogAnalysis.CollectEvents` | backend/src/security_review/infrastructure/scanners/blue_team_agent.py:103-199 | each finding occurs exactly as often as the lines' tags call for: once per matching line, once per counter at its threshold with its exact count |
| `LogAnalysis.AnalyzeLogs` | backend/src/security_review/infrastructure/scanners/blue_team_agent.py:97-234 | reports those findings, after a summary with their number and the number of each severity, or that there were none or no log files |
| `LogAnalysis.BruteForceIsExact` | backend/src/security_review/infrastructure/scanners/blue_team_agent.py:113-180 | a brute-force finding names a file and source iff at least five of the file's first 5000 lines are its failed logins, once, with that number |
| `LogAnalysis.ScanningIsExact` | backend/src/security_review/infrastructure/scanners/blue_team_agent.py:159-199 | a scanning finding names a source iff at least three probing lines over all files are attributed to it, once, with that number |
| `LogAnalysis.RaisedIsExact` | backend/src/security_review/infrastructure/scanners/blue_team_agent.py:121-157 | an attack or a command is reported exactly as often as its line is among the file's first 5000, with the first signature that the lower-cased line contains |
| `LogAnalysis.FirstSignatureMeans` | backend/src/security_review/infrastructure/scanners/blue_team_agent.py:121-138 | of several signatures in a line the first of the list is reported |
| `LogAnalysis.SignaturesMean` | backend/src/security_review/infrastructure/scanners/blue_team_agent.py:16-46 | which lower-cased lines raise an attack, raise a command and probe, by the literal signatures |
| `LogAnalysis.SourcesMean` | backend/src/security_review/infrastructure/scanners/blue_team_agent.py:114-117 | a line is attributed to the address in it, else a failed login to `unknown` and a probe to its file |
| `LogAnalysis.RetainedMeans` | backend/src/security_review/infrastructure/scanners/blue_team_agent.py:107-111 | of a file its first 5000 lines are read, of an unreadable one none |
| `LogAnalysis.LineOrderDoesNotMatter` | backend/src/security_review/infrastructure/scanners/blue_team_agent.py:107-199 | permuting a file's retained lines leaves the multiset of findings unchanged |
| `LogAnalysis.SummaryAddsUp` | backend/src/security_review/infrastructure/scanners/blue_team_agent.py:201-209 | the severity counts of a summary add up to the number of events, and none is low |
| `LogAnalysis.SummaryCounts` | backend/src/security_review/infrastructure/scanners/blue_team_agent.py:201-209 | each severity is counted by the kinds of events that have it, and only severities with events are named |
| `LogAnalysis.DiscoverLogFiles` | backend/src/security_review/infrastructure/scanners/blue_team_agent.py:237-253 | the first twenty distinct regular files over all patterns in turn |
| `LogAnalysis.LogFilesMean` | backend/src/security_review/infrastructure/scanners/blue_team_agent.py:244-252 | the files found are the regular candidates, each once, in the order of their first candidates |
| `AttackChains.ChainAttackPaths` | backend/src/security_review/infrastructure/scanners/red_team_agent.py:264-312 | one chain for exactly the named files whose findings open two steps or more, its steps all the steps they open in the attacker's order, chains in the order of first mention |
| `AttackChains.FileKeyMeans` | backend/src/security_review/infrastructure/scanners/red_team_agent.py:271-274 | a finding's file is its evidence up to the first colon, all of it without one |
| `AttackChains.OpensMeans` | backend/src/security_review/infrastructure/scanners/red_team_agent.py:279-294 | which lower-cased titles open which step, by the literal keywords |
| `AttackChains.AttackOrderMeans` | backend/src/security_review/infrastructure/scanners/red_team_agent.py:278-294 | the order of the six steps |
| `AttackChains.ChainsAreUnique` | backend/src/security_review/infrastructure/scanners/red_team_agent.py:271-312 | what files are exposed to and the order of their first mention determine the chains |
| `AttackChains.FindingOrderDoesNotMatter` | backend/src/security_review/infrastructure/scanners/red_team_agent.py:271-295 | the order and repetition of findings only decide the order of the chains |
| `AttackChains.ChainingTwiceAddsNothing` | backend/src/security_review/infrastructure/scanners/red_team_agent.py:295-310 | chains reported as findings lead to no further chain and change none |

## Left out

- Crawler.Crawl: URL parsing and joining are total functions here; in the program a malformed link can raise, which abandons the crawl.
- Remediation.Workspace.ApplyTimeoutFixes: writing is taken to succeed, and line ends are those of a POSIX system.
- RateLimiter.RedisRateLimiterBackend.Increment: the commands of one increment run at one instant and none fails; a crash between INCR and EXPIRE is not modelled.
- RateLimiter.RedisRetryAfterBounds: the server's TTL is taken to be rounded to the nearest second.
- Base64Url.CraftedTokenRoundTrip: JSON text is opaque bytes; what the inspector reads in header and payload is not modelled.
- TokenSearch.TokenIsFoundIff: says nothing of a token that directly follows a dot or a class character.
- PasswordRecord.VerifyAcceptsSameKey: `int` and `bytes.fromhex` accept further spellings (signs, underscores, spaces) that the model's parsers refuse; stored records never contain them.
- AssessmentService.AssessmentService.CreateScanJob: saving is taken to succeed; the program records the consent first, so a save that fails leaves an entry without a job.
- AssessmentAudit.ConsentsAreNeverLost: is about the table; its listing (one organisation's newest 200 entries) is not modelled.
- AssessmentStore.AssessmentRepository.Get: pydantic parsing is the identity; a payload that does not parse is not modelled.
- AssessmentService.AssessmentService.CreateAssessment: descriptions are left out, as are finding descriptions, because no operation reads them.
- LogAnalysis.CollectEvents: counters report in any order, while the program reports in the order of first occurrence; texts of findings are reduced to their parts.
- AccountServices.BillingService.HandleStripeWebhook: the event is already verified; a missing secret or a bad signature raises before anything is read.
- AccountRuns.TokensResetOnce: hashes of new tokens are taken to differ from all earlier ones.
- Interleaved writes to one assessment or one organisation: nothing in the program guards them, so only counterexamples are proved.
- `Assessment.complete`, `fail` and `rename`: no service operation calls them.
- Login, JWT signing and role guards of the routers: settled by reading one branch.
- The scanners that are one file loop over regular expressions: branch-level claims only.
- Probing, sockets, subprocesses, git, pull requests, mail, webhook delivery, metrics and logging: foreign calls without effect on the modelled state.
- SQL text, dialects and migrations: tables are maps and sequences, statements are atomic, and text columns are ordered by character.
