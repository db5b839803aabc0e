# XGenGuardian: verified models of its algorithms and protocols

XGenGuardian is a web-protection stack of Go services and a browser extension. This project models the
algorithms and protocols of that stack whose correctness depends on loops, shared state, time or
interleaving, and proves what they guarantee on every input and over every run.

How the models are built:

- Code that changes state is a class or a method with the source's fields, branches, constants and loops.
  Its contract equates the result with an independent notion (a minimum over edit scripts, a set of paths)
  or with a step function on the abstract state; theorems about runs are lemmas over those step functions.
- A run is a sequence of events. `Run` gives the state after them, and every theorem quantifies over all
  event sequences, so every interleaving of the modelled steps is covered.
- Clocks are event or method parameters. Redis lists and counters, `chrome.storage` and the log directory
  are maps. Hash functions, URL printing, host-name extraction, IP text conversion and dictionaries are
  parameters; where a law of theirs is needed it is a `requires` of the lemma that uses it.
- Weights of the drainer scorer are reals; dictionary terms are non-empty and their weights non-negative.

| file | source it models |
|---|---|
| `EditDistance.dfy`, `KeywordPolling.dfy` | ct-monitor: two-row edit distance, keyword matcher, round-robin polling |
| `DeepScan.dfy` | verdict-api: bounded breadth-first crawl |
| `Coalescer.dfy` | verdict-api: request coalescing with a wedge TTL |
| `Addresses.dfy`, `Rebind.dfy`, `Ledger.dfy`, `DnsPath.dfy` | resolver and verdict-api: answer filter, ledger, comparison, and the chain of all of them |
| `BlockLists.dfy` | resolver: never-block check, Bloom prefilter and its loader |
| `SessionLog.dfy` | verdict-api: session log rotation |
| `VerdictCache.dfy`, `Navigation.dfy`, `NavigationAwaits.dfy`, `CachedNavigation.dfy`, `HoldingPage.dfy` | extension: verdict cache, navigation hook (handlers as steps, and awaits as steps), hook and cache together, holding page |
| `RateLimit.dfy`, `Poller.dfy`, `SurfaceQueue.dfy` | per-minute limiter, domain rate limit with map pruning, concurrency-limited queue |
| `Drainer.dfy`, `CsvLine.dfy` | drainer score, CSV splitter |
| `Text.dfy` | shared string operations |

Where code and comments disagree the model follows the code:

- The ledger's header promises a key lifetime of the longest TTL seen; the code uses the last write's TTL
  (`Ledger.LaterShortTtlWins`). `Ledger.FoundToTheEndIff` says when a row is found for all of its TTL. The
  extracted TTL is not always the smallest (`Rebind.TtlIsMinimumIff`).
- The throttle comment speaks of three intercepts per rolling window; the window is fixed, so five in thirty
  seconds are possible (`Navigation.FiveHoldsFit`) and six are not (`Navigation.SixHoldsSpanTheWindow`). The
  code exceeds the rolling bound exactly when the third-last hold is not at the start of its counter window
  (`Navigation.ThrottleVersusRolling`).
- The hook reads and writes its token and counter in separate storage calls. The bounds hold over every
  interleaving in which the sections of one URL do not overlap, and fail without limit when they do
  (`NavigationAwaits`).
- The verdict cache is written and read under different keys, so a verdict stored for a URL that ends in a
  slash, as every bare origin does, is never found (`VerdictCache.OtherFormsAreNeverFound`).
- A restart brings back an overwritten BLOCK (`VerdictCache.RestartResurrectsBlock`).
- The holding page records resolution before the apply is acknowledged and ignores a refusal
  (`HoldingPage.StrandedIff`). A target that is not http(s) is answered with ALLOW and its apply refused, so
  its page ends stranded (`HoldingPage.NonHttpStrands`).
- "Never re-check the same URL twice" holds only once the first reply is in (`SurfaceQueue.CheckedAgainIff`).
- The Bloom loader splits each read on its own (`BloomLoading.LoadedIsLinesIff`).
- Longer text of a single script indicator can lower the score (`Drainer.GrownIndicatorLowersScore`,
  `Drainer.GrownIndicatorLowersScoreIff`).

## Model

| member | source | states |
|---|---|---|
| EditDistance.Levenshtein | services/ct-monitor/cmd/ct-monitor/main.go:372-402 | the two-row table returns the least number of single-character insertions, deletions and substitutions that turn one text into the other |
| EditDistance.DistIsEditDistance | services/ct-monitor/cmd/ct-monitor/main.go:385-401 | the recurrence is the edit distance and nothing else is: some script has that length, none is shorter |
| EditDistance.ZeroIffEqual | services/ct-monitor/cmd/ct-monitor/main.go:372-375 | distance zero exactly for equal texts |
| EditDistance.Symmetric | services/ct-monitor/cmd/ct-monitor/main.go:372-402 | the distance is symmetric |
| EditDistance.Triangle | services/ct-monitor/cmd/ct-monitor/main.go:372-402 | the triangle inequality |
| EditDistance.LengthBounds | services/ct-monitor/cmd/ct-monitor/main.go:372-402 | the distance lies between the length difference and the longer length |
| EditDistance.Matches | services/ct-monitor/cmd/ct-monitor/main.go:292-313 | the first keyword in list order that is contained in the first label or reachable by at most two edits; no match exactly if there is none; the inequality guard decides nothing |
| KeywordPolling.Poller.Tick | services/ct-monitor/cmd/ct-monitor/main.go:128-156 | a tick queries the next ten keywords, or all of fewer, from the cursor on, and leaves the cursor behind them, for any earlier cursor |
| KeywordPolling.TickIsDistinct | services/ct-monitor/cmd/ct-monitor/main.go:136-150 | no keyword is queried twice in one tick |
| KeywordPolling.TicksAreOneWalk | services/ct-monitor/cmd/ct-monitor/main.go:136-141 | consecutive ticks continue each other without overlap or gap |
| KeywordPolling.CoversAll | services/ct-monitor/cmd/ct-monitor/main.go:126-150 | any ceil(n/10) consecutive ticks query every keyword |
| KeywordPolling.Fair | services/ct-monitor/cmd/ct-monitor/main.go:126-150 | after any number of ticks two keywords' query counts differ by at most one |
| DeepScan.Scan | services/verdict-api/internal/httpgw/deepscan.go:89-206 | each URL at most once, in nondecreasing depth, at the length of a real filtered link path; for every request at most 15 pages, depth 2 and five other-host pages, by default 5 pages and depth 1, else what was asked; if everything in reach fits these numbers and the budget, or the result stays below them, exactly the URLs in reach at their shortest distances; pages are taken up first come, first served, and a link is passed over only for a page already taken up or a cap reached by then; terminates without the deadline |
| DeepScan.EnqueueLinks | services/verdict-api/internal/httpgw/deepscan.go:178-204 | taking up the links of a page keeps the crawl invariant, and a link is turned away only by a cap that is reached |
| DeepScan.WithinIsReachable | services/verdict-api/internal/httpgw/deepscan.go:179-202 | the level sets used by the crawl theorem are what link paths of at most that length reach |
| DeepScan.FollowedIff | services/verdict-api/internal/httpgw/deepscan.go:179-192 | which links are followed |
| DeepScan.AllInReach | services/verdict-api/internal/httpgw/deepscan.go:121-206 | a crawl that turned nothing away and emptied its queue has every URL in reach at its shortest distance |
| Coalescer.Group.Enter | services/verdict-api/internal/httpgw/coalesce.go:87-107 | the first critical section performs exactly the model's step and says whether the caller leads |
| Coalescer.Group.Remove | services/verdict-api/internal/httpgw/coalesce.go:113-120 | the second critical section removes the record only if it is still registered, and returns the leader's own outcome |
| Coalescer.NextKeeps | services/verdict-api/internal/httpgw/coalesce.go:82-121 | every step of every caller keeps the protocol invariant |
| Coalescer.OverlapsAreApart | services/verdict-api/internal/httpgw/coalesce.go:88-107 | two overlapping runs of `fn` for one key were registered at least one TTL apart, in every interleaving |
| Coalescer.OneLeader | services/verdict-api/internal/httpgw/coalesce.go:105-111 | an unfinished call has exactly one leader |
| Coalescer.ReturnsTheCallsOutcome | services/verdict-api/internal/httpgw/coalesce.go:95-121 | whoever returns without a context error returns the outcome of the call it led or joined, set by then and never changed |
| Coalescer.SuccessorIsKept | services/verdict-api/internal/httpgw/coalesce.go:101-118 | a registered record disappears only through its own leader after the broadcast or by replacement after its TTL |
| Coalescer.CapturedBeforeTtl | services/verdict-api/internal/httpgw/coalesce.go:88-99 | a follower joined before its call's TTL was over |
| Coalescer.WedgedCallIsReplaced | services/verdict-api/internal/httpgw/coalesce.go:92-107 | a caller runs `fn` itself exactly when the registered call is a TTL old |
| Coalescer.JoinsIff | services/verdict-api/internal/httpgw/coalesce.go:87-107 | in every interleaving a caller waits exactly for a call that still has its leader, is the newest of its key and less than sixty seconds old; without one it leads a new call |
| Coalescer.NothingLedStartsAfresh | services/verdict-api/internal/httpgw/coalesce.go:113-120 | a caller of a key whose calls have all been left by their leaders runs `fn` itself, however young the last outcome is |
| Coalescer.OutcomeIsWhatFnReturned | services/verdict-api/internal/httpgw/coalesce.go:109-111 | the outcome of a call is what `fn` returned to its leader, in every interleaving |
| Coalescer.EveryoneGetsTheOutcome | services/verdict-api/internal/httpgw/coalesce.go:95-121 | after `fn` returns, the leader and every follower that wakes return its outcome, and the call is no longer led |
| Coalescer.GivingUpIsAlone | services/verdict-api/internal/httpgw/coalesce.go:95-99 | a follower whose own context ends leaves without disturbing the call or anybody else |
| Addresses.PrivateIsReserved | services/verdict-api/internal/connid/connid.go:95-115 | every address verdict-api calls private is rejected by the resolver's filter |
| Addresses.PrivateV4Iff | services/verdict-api/internal/connid/connid.go:95-115 | which IPv4 addresses verdict-api calls private, in numbers, both directions |
| Addresses.PrivateV6Iff | services/verdict-api/internal/connid/connid.go:95-115 | and which 16-byte addresses that are not mapped |
| Addresses.ReservedV4 | services/resolver/internal/rebind/rebind.go:55-112 | the IPv4 rule is membership in a table of fourteen address blocks, both directions |
| Addresses.ReservedV6 | services/resolver/internal/rebind/rebind.go:55-111 | the IPv6 rule is a list of six prefixes, both directions |
| Addresses.To4Is | services/verdict-api/internal/connid/connid.go:105-113 | a 16-byte address has a 4-byte form exactly if it is a mapped one |
| Addresses.To16SameClass | services/resolver/internal/rebind/rebind.go:67-111 | both classifiers treat an IPv4 address and its mapped 16-byte form alike |
| Rebind.Filter | services/resolver/internal/rebind/rebind.go:24-50 | in-place compaction leaves exactly the passing records; dropped plus kept is the original length; both flags mean what they say |
| Rebind.KeptPositions | services/resolver/internal/rebind/rebind.go:28-49 | the kept records stand at strictly increasing original positions, exactly those that pass |
| Rebind.UpstreamAnswer | services/resolver/cmd/resolver/main.go:750-772 | for every exchange: SERVFAIL if it failed; NXDOMAIN without records exactly if there are address records and all are rejected; else its own rcode with exactly the passing records, in order |
| Rebind.UpstreamIsClean | services/resolver/cmd/resolver/main.go:750-772 | no answer carries a rejected address, and every record comes from the upstream answer |
| Rebind.ExtractAnswers | services/resolver/cmd/resolver/main.go:777-798 | the texts of exactly the A and AAAA records, at strictly increasing positions, and the running TTL |
| Rebind.TtlIsMinimumIff | services/resolver/cmd/resolver/main.go:792-795 | the extracted TTL is the true minimum exactly when no TTL is zero or the last one is |
| Rebind.TtlIsMinimumSinceZero | services/resolver/cmd/resolver/main.go:792-795 | in general it is the least TTL after the last zero |
| Resolver.Resolve | services/resolver/cmd/resolver/main.go:540-634 | exactly which queries are sinkholed, and that all others get the filtered upstream answer |
| Resolver.DecisionOrder | services/resolver/cmd/resolver/main.go:546-554 | the order of the lists and verdicts: an essential name is never sinkholed, a strictly listed one otherwise always, then allow list, weak list, cached and fresh verdict |
| Ledger.Write | services/resolver/internal/iledger/iledger.go:83-111 | the command sequence leaves the ten newest rows and the clamped lifetime, other keys untouched |
| Ledger.Recent | services/verdict-api/internal/iledger/iledger.go:58-78 | the stored rows still inside their own TTL, in order |
| Ledger.CompareLedger | services/verdict-api/internal/connid/compare.go:63-86 | match exactly if some row has the browser's address, else mismatch; an empty ledger reports a bypass for an opted-in client, no reported address nothing |
| Ledger.KeyIsInjective | services/resolver/internal/iledger/iledger.go:65-73 | for names without a colon the key determines client and domain |
| Ledger.PlainKeysDiffer | services/resolver/internal/iledger/iledger.go:65-73 | for names already trimmed, lower-case and undotted the key is the prefix, the client and the domain, and different pairs have different keys |
| Ledger.KeyIgnoresCase | services/verdict-api/internal/iledger/iledger.go:38-48 | case makes no difference to a key, and a missing client is the client "unknown" |
| Ledger.KeyIgnoresDot | services/verdict-api/internal/iledger/iledger.go:38-48 | a trailing dot of the name makes no difference to a key |
| Ledger.LiveIs | services/resolver/internal/iledger/iledger.go:97-108 | after any writes a reader finds exactly the ten newest rows since the last expiry, until the last write's clamped TTL and grace are over |
| Ledger.RowIsFoundIff | services/resolver/internal/iledger/iledger.go:83-108 | with fewer than ten newer rows, a row inside its own TTL is found exactly if every write to its key since its own kept the list alive until now or until the next write |
| Ledger.LoneRowIsFoundIff | services/resolver/internal/iledger/iledger.go:83-108 | in seconds: a row written alone is found for its TTL, but at least 60 and at most 86 400, and not in the 300 in which the list lives on |
| Ledger.AtMostTenRows | services/resolver/internal/iledger/iledger.go:97-104 | a living list has the newest rows of its history, up to ten, and one read fetches all of them |
| Ledger.FoundToTheEndIff | services/resolver/internal/iledger/iledger.go:34-36 | the header's lifetime: a row is found at every moment of its own clamped TTL exactly if no write of the run, with its own clamped TTL and the grace, lets the list expire before that and before the next write |
| Ledger.ShortTtlIsSafe | services/resolver/internal/iledger/iledger.go:51-53 | a row with a clamped TTL below the least list lifetime (360 s) is never lost early, whatever is written later |
| Ledger.LaterShortTtlWins | services/resolver/internal/iledger/iledger.go:90-108 | any other row is lost before its TTL is over by one later write with the least TTL, even in its own second |
| DnsPath.MatchMeansReturned | services/resolver/cmd/resolver/main.go:524-543 | over all runs, a match is reported only for an address the resolver returned, filtered and not sinkholed, under the reader's key |
| DnsPath.MatchIsPublic | services/verdict-api/internal/connid/compare.go:74-81 | a DNS-path match and a private browser address exclude each other |
| DnsPath.AnswerIsResolved | services/resolver/cmd/resolver/main.go:540-634 | in every run the answer to a query is NXDOMAIN if its lookups say so, else exactly the passing records of the upstream answer |
| DnsPath.EntriesAreAnswers | services/resolver/cmd/resolver/main.go:530-542 | over all runs each ledger entry is the write of one answer that was not sinkholed: its client's key, the texts of all its addresses, its folded TTL, at a later time |
| DnsPath.EveryAnswerIsAccountedFor | services/resolver/cmd/resolver/main.go:526-543 | over all runs each answer that was not sinkholed and has an address is waiting, lost or written, exactly once, and no other answer is |
| DnsPath.ReturnedAddressMatches | services/resolver/internal/iledger/iledger.go:97-108 | over all runs, each address of each answer whose write is neither waiting nor lost is in the ledger and matches as long as the ledger keeps its row, whatever came between answer and write or since |
| Text.TrimIs | services/resolver/cmd/resolver/main.go:863 | trimming takes off exactly the white space at both ends |
| Text.LowerIs | services/verdict-api/internal/iledger/iledger.go:38-48 | lower-casing changes exactly the letters A to Z |
| NeverBlock.IsNeverBlock | services/resolver/cmd/resolver/main.go:137-167 | true exactly if the domain is listed, or some parent suffix is listed and not a shared-hosting suffix; terminates |
| NeverBlock.TenantNeedsOwnEntry | services/resolver/cmd/resolver/main.go:129-136 | listing a shared host makes no difference for an unlisted tenant |
| BloomLoading.BloomFilter.Load | services/resolver/cmd/resolver/main.go:850-873 | the loader adds the trimmed lines of every read, each read split on its own |
| BloomLoading.SplitIs | services/resolver/cmd/resolver/main.go:862 | the parts of a read are the text between its line breaks |
| BloomLoading.LinesIff | services/resolver/cmd/resolver/main.go:862-865 | what is added are the parts that are not blank, trimmed |
| BloomLoading.LoadedIsLinesIff | services/resolver/cmd/resolver/main.go:858-871 | that is the file's line list exactly if at every read boundary the line is blank on one side |
| BloomLoading.NoFalseNegative | services/resolver/cmd/resolver/main.go:171-175 | an added string always tests positive |
| BloomLoading.DecisionIsMembershipIff | services/resolver/cmd/resolver/main.go:564-571 | for any hashes, the decision for a domain is membership exactly if the domain is not listed or was itself loaded, however the reads cut other lines |
| BloomLoading.DecisionIsMembership | services/resolver/cmd/resolver/main.go:564-571 | prefilter and exact set together decide exactly membership when the listed names were loaded uncut |
| BloomLoading.CutLineCanBeMissed | services/resolver/cmd/resolver/main.go:858-865 | any name cut by a read boundary is loaded as two halves and can be missed |
| SessionLog.SessionLogger.RotateCurrent | services/verdict-api/internal/httpgw/sessionlog.go:123-141 | the downward loop of renames shifts every generation by one and loses only the oldest |
| SessionLog.SessionLogger.Write | services/verdict-api/internal/httpgw/sessionlog.go:143-192 | one write performs exactly day change, size check, opening and appending of the model |
| SessionLog.KeepsASuffix | services/verdict-api/internal/httpgw/sessionlog.go:123-192 | over all runs of writes and restarts `.5 ++ .4 ++ .3 ++ .2 ++ .1 ++ active` is a suffix, in order, of all lines written that day |
| SessionLog.NothingLostYet | services/verdict-api/internal/httpgw/sessionlog.go:128-137 | before there is a fifth generation nothing is lost |
| SessionLog.CounterIsSize | services/verdict-api/internal/httpgw/sessionlog.go:168-191 | generations are contiguous and the byte counter is the active file's size while it is open |
| SessionLog.SizeBound | services/verdict-api/internal/httpgw/sessionlog.go:162-176 | started on files below the cap, the active file stays below the cap apart from its last line, and one more line for each restart |
| SessionLog.ActiveAfterWrite | services/verdict-api/internal/httpgw/sessionlog.go:162-165 | a write rotates exactly when the file is already open and at the cap |
| SessionLog.WriteMoves | services/verdict-api/internal/httpgw/sessionlog.go:123-191 | what a write does to every file: only an open active file of 100 MiB makes the generations move up, each by one |
| SessionLog.WriteLosesOnlyTheOldest | services/verdict-api/internal/httpgw/sessionlog.go:128-133 | a write loses no line but those of the fifth generation, and these only when it rotates |
| VerdictCache.Cache.GetCached | apps/extension/src/background.js:265-288 | the lookup and its clean-up of the persistent copy |
| VerdictCache.Cache.SetCached | apps/extension/src/background.js:290-297 | the write to one or both tiers |
| VerdictCache.RefinesLastWrite | apps/extension/src/background.js:265-297 | with the session entry intact a lookup gives the last verdict written for exactly its TTL |
| VerdictCache.BlockSurvives | apps/extension/src/background.js:249-264 | a BLOCK that is the last write is found for its full TTL across restarts |
| VerdictCache.EveryAnswer | apps/extension/src/background.js:265-297 | the answer after any run, by the events alone: the last verdict while the session has it, else the latest BLOCK unless a lookup has cleaned it up, each within its TTL |
| VerdictCache.AgeLimits | apps/extension/src/background.js:265-288 | in milliseconds: the last verdict is found up to an age of 3 600 000 for BLOCK, 1 800 000 for WARN and ISOLATE, 300 000 for any other, and not later |
| VerdictCache.BlockAgeLimit | apps/extension/src/background.js:249-288 | the same hour for a last-written BLOCK through restarts; a lookup after it removes the persistent copy |
| VerdictCache.LookupCleansUp | apps/extension/src/background.js:280-286 | a lookup changes nothing but the persistent copy of its key, and removes that exactly if what it found is too old |
| VerdictCache.RestartResurrectsBlock | apps/extension/src/background.js:268-273 | after any run, a restart brings back a BLOCK overwritten by another verdict |
| VerdictCache.OwnTokenFormIff | apps/extension/src/background.js:317-325 | a printed URL is its own token form exactly if it has no fragment and no slash at its end |
| VerdictCache.TokenFormTakesOff | apps/extension/src/background.js:317-325 | the token form of a URL takes off only a fragment and the slashes at the end |
| VerdictCache.KeysMeetIff | apps/extension/src/background.js:1067-1072 | writer and reader mean the same key exactly if the visited URL is the token form of the stored one |
| VerdictCache.StoredIsVisibleIff | apps/extension/src/background.js:806-818 | after any run, a verdict just stored is what the hook finds for the same URL exactly for URLs in token form; for others it finds what it would have found before |
| VerdictCache.OtherFormsAreNeverFound | apps/extension/src/background.js:1067-1072 | over every run whose writes are the resolve handler's, the hook finds nothing, fresh or stale, for a URL with a fragment or a final slash |
| Navigation.Background.OnBeforeNavigate | apps/extension/src/background.js:774-878 | the hook's decision and its effect on token and counter |
| Navigation.Background.ConsumeJustVerified | apps/extension/src/background.js:332-340 | a stamp is removed when read and passes for ten seconds |
| Navigation.Background.ShouldThrottleIntercept | apps/extension/src/background.js:647-668 | the fixed-window counter and its decision |
| Navigation.OutcomeIff | apps/extension/src/background.js:774-871 | for every state, URL and context, exactly when each of the seven outcomes comes about; a cached BLOCK sends to the blocked page and a cached ALLOW passes, on pages that are not sensitive |
| Navigation.NavigationLeaves | apps/extension/src/background.js:786-790 | every watched navigation uses the token of its URL up; one that does not reach the throttle leaves the counters alone |
| Navigation.OtherEvents | apps/extension/src/background.js:327-340 | a restart of the browser forgets tokens and counters and nothing else |
| Navigation.PassesAreApplied | apps/extension/src/background.js:327-340 | each token pass goes back to its own ALLOW apply of that URL at most ten seconds earlier |
| Navigation.NeverMorePassesThanApplies | apps/extension/src/background.js:671-681 | for each URL never more token passes than ALLOW applies, over every run |
| Navigation.ApplyOpensOnce | apps/extension/src/background.js:306-310 | an apply lets the next navigation within ten seconds through, and only that one |
| Navigation.SixHoldsSpanTheWindow | apps/extension/src/background.js:644-668 | any six navigations of a URL sent to holding span more than thirty seconds, between browser restarts |
| Navigation.AtMostFiveHolds | apps/extension/src/background.js:644-668 | in any thirty seconds at most five navigations of a URL are sent to holding |
| Navigation.FiveHoldsFit | apps/extension/src/background.js:651-658 | a run, for any URL, in which five of them are |
| Navigation.ThrottleVersusRolling | apps/extension/src/background.js:866-870 | after any run the counter lets through only what a rolling window would, and all of that exactly when the third-last hold stands at the start of its counter window |
| CachedNavigation.PartsMove | apps/extension/src/background.js:774-818 | how hook and cache move together: when the hook asks the cache, what it is told, and what a restart leaves |
| CachedNavigation.BlockedForAnHour | apps/extension/src/background.js:806-818 | over every run of hook and resolve handler, a BLOCK stored for a URL in token form and not replaced blocks each plain navigation to it for an hour, through restarts |
| CachedNavigation.PassedByAllowOnly | apps/extension/src/background.js:810-811 | over every run, a navigation passes by the cache only if an ALLOW was the last verdict stored for its URL, at most five minutes ago |
| NavigationAwaits.AloneIsNavigate | apps/extension/src/background.js:774-878 | the atomic hook is the schedule in which a navigation's steps follow one another |
| NavigationAwaits.SharedEvents | apps/extension/src/background.js:327-330 | time, applies and restarts act on the storage as in the atomic model |
| NavigationAwaits.PassesWithinApplies | apps/extension/src/background.js:332-340 | with awaits as steps and applies anywhere: while no navigation reads the token of a URL between another's read and removal, never more passes than applies |
| NavigationAwaits.OneTokenManyPasses | apps/extension/src/background.js:332-340 | otherwise one apply lets any number of navigations through |
| NavigationAwaits.HoldBoundStands | apps/extension/src/background.js:647-668 | with awaits as steps: while no navigation enters the throttle check of a URL that another is in, any six holds span more than thirty seconds |
| NavigationAwaits.ChecksAllHold | apps/extension/src/background.js:647-668 | otherwise any number of navigations are held at one moment and counted as one |
| HoldingPage.Page.OnAttemptEnds | apps/extension/src/holding.js:84-136 | what the end of an attempt does, by attempt and earlier resolution |
| HoldingPage.Page.OnHardDeadline | apps/extension/src/holding.js:162-175 | the deadline shows the choice unless the page is resolved |
| HoldingPage.NeverJustWaiting | apps/extension/src/holding.js:39-42 | by twelve seconds the page is resolved or shows the choice, for every order of replies, timers, clicks and rejections |
| HoldingPage.NobodyAnswers | apps/extension/src/holding.js:120-141 | when both questions fail, the second is asked exactly a second after the first failure, and the choice is shown at the second |
| HoldingPage.QuestionTimesOut | apps/extension/src/holding.js:61-82 | an unanswered question ends by itself after exactly eight seconds |
| HoldingPage.SecondQuestion | apps/extension/src/holding.js:120-131 | after a question that timed out the page asks again at nine seconds |
| HoldingPage.DeadlineAtTwelve | apps/extension/src/holding.js:162-165 | a page whose two questions stay unanswered shows the choice at twelve seconds and not before |
| HoldingPage.VerdictIsApplied | apps/extension/src/holding.js:84-97 | a real verdict is applied on any unresolved page, also after the choice is shown, and on no other |
| HoldingPage.ClicksAct | apps/extension/src/holding.js:179-209 | each button sends its verdict whatever has happened; going back ends the automatic path without a call |
| HoldingPage.ResolvedAsksNoMore | apps/extension/src/holding.js:128-130 | a page resolved during the back-off asks no second question |
| HoldingPage.CrashShowsChoice | apps/extension/src/holding.js:143-146 | if the automatic path breaks down on an unresolved page the choice is shown at once |
| HoldingPage.AutomaticPathIsBounded | apps/extension/src/holding.js:120-141 | the automatic path asks at most twice, ends by seventeen seconds and sends at most one apply, before any other |
| HoldingPage.NoAutomaticApplyAfterResolution | apps/extension/src/holding.js:84-97 | once the page is resolved, no further event sequence sends an automatic apply |
| HoldingPage.HandleApplyMessage | apps/extension/src/background.js:1093-1119 | the apply handler moves the tab, and says so, exactly if the target is http(s), the tab is known and on an extension page, and storage (for a release) and navigation work; each failing guard refuses |
| HoldingPage.StrandedIff | apps/extension/src/holding.js:99-116 | over every run at rest on a resolved page: stranded exactly if there was no going back and no choice, and every apply lost its tab or met a failing guard of the handler |
| HoldingPage.NonHttpStrands | apps/extension/src/background.js:1052-1097 | for a target that is not http(s) no run moves the tab by itself, and every run whose first question is answered ends stranded |
| HoldingPage.ReliableNeverStrands | apps/extension/src/background.js:1098-1119 | for an http(s) target no run strands the page if the guards hold whenever the handler runs, and then every apply moves the tab |
| HoldingPage.StrandedForGood | apps/extension/src/holding.js:162-175 | a stranded page stays stranded until the user acts |
| HoldingPage.LostTabStrands | apps/extension/src/holding.js:99-102 | a verdict within the first attempt whose tab lookup fails strands the page |
| HoldingPage.QuickVerdictStrandsIff | apps/extension/src/background.js:671-681 | a verdict within the first attempt strands the page exactly if a guard of the handler fails |
| RateLimit.Limiter.Handle | services/verdict-api/internal/httpgw/ratelimit.go:102-149 | the middleware's decision and counter updates |
| RateLimit.BucketKeyText | services/verdict-api/internal/httpgw/ratelimit.go:78-81 | the text of a bucket key |
| RateLimit.BucketKeyIsInjective | services/verdict-api/internal/httpgw/ratelimit.go:78-81 | bucket keys are injective in kind, identity and minute |
| RateLimit.DecidesByPlainCounts | services/verdict-api/internal/httpgw/ratelimit.go:85-97 | over all runs the expiring counters decide like plain counting; the address counter counts the requests that passed the client check |
| RateLimit.EveryDecisionIsPlain | services/verdict-api/internal/httpgw/ratelimit.go:102-149 | every decision of a run is the plain one, by the requests before it in the same minute |
| RateLimit.RunsInTime | services/verdict-api/internal/httpgw/ratelimit.go:102-149 | a run has one decision for each request, at the time waited until then |
| RateLimit.CounterLivesTwoMinutes | services/verdict-api/internal/httpgw/ratelimit.go:85-97 | a counter is forgotten two minutes after its last request, and not before |
| RateLimit.CountIs | services/verdict-api/internal/httpgw/ratelimit.go:89-91 | a bucket never expires during its own minute |
| RateLimit.BucketBound | services/verdict-api/internal/httpgw/ratelimit.go:96-97 | at most the limit is admitted per identity and minute |
| RateLimit.AnyMinuteBound | services/verdict-api/internal/httpgw/ratelimit.go:75-78 | at most twice the limit in any sixty seconds |
| Poller.Poller.MarkSeen | services/scheduler/internal/poller/poller.go:156-172 | marking and the deletion loop over the map leave exactly the pruned map |
| Poller.Poller.Tick | services/scheduler/internal/poller/poller.go:121-141 | which rows of a sweep are dispatched and what the map is afterwards |
| Poller.PruningIsInvisible | services/scheduler/internal/poller/poller.go:143-172 | for every run with a monotone clock and any rate limit, pruning changes no decision |
| Poller.DispatchesAreSpaced | services/scheduler/internal/poller/poller.go:127-141 | two marked dispatches of a non-empty domain are at least the rate limit apart |
| Poller.DispatchedIff | services/scheduler/internal/poller/poller.go:121-172 | over every run, with pruning, a row is dispatched exactly if the dispatcher takes it and its domain is empty or was last dispatched at least the rate limit before |
| SurfaceQueue.Surface.Drain | apps/extension/src/surface-shield.js:316-329 | the loop starts jobs from the front until the slots are taken or none waits |
| SurfaceQueue.Surface.Queue | apps/extension/src/surface-shield.js:305-314 | a cached key answers at once with its reply, any other request joins the queue |
| SurfaceQueue.LimitedAndBusy | apps/extension/src/surface-shield.js:316-329 | at most four checks in flight, and a job waits only while all four slots are taken |
| SurfaceQueue.Conserved | apps/extension/src/surface-shield.js:305-329 | queued jobs are exactly those waiting, in flight and finished, in queue order |
| SurfaceQueue.StartsInOrder | apps/extension/src/surface-shield.js:317-319 | checks start first in, first out |
| SurfaceQueue.EveryCallbackOnce | apps/extension/src/surface-shield.js:320-327 | no callback runs twice, and all have run when nothing is in flight |
| SurfaceQueue.CheckedAgainIff | apps/extension/src/surface-shield.js:43-46 | a request leads to a new check exactly when no reply for its key has come in |
| SurfaceQueue.CacheHoldsLastReply | apps/extension/src/surface-shield.js:320-324 | the cache holds for each key exactly the last reply that came in for it |
| SurfaceQueue.OnlyRequestsMakeJobs | apps/extension/src/surface-shield.js:305-314 | an uncached request is queued last, under its own key, and nothing else makes a job |
| SurfaceQueue.RepliesAreDelivered | apps/extension/src/surface-shield.js:319-324 | in every run the reply of a started job runs its callback and is cached |
| SurfaceQueue.SlotsAreFreed | apps/extension/src/surface-shield.js:324-327 | in every run an answered job gives its slot back, and the next waiting job takes it |
| SurfaceQueue.CheckedTwice | apps/extension/src/surface-shield.js:305-314 | two requests before the first reply lead to two checks |
| Drainer.Score | services/verdict-api/internal/cryptodrainer/cryptodrainer.go:91-113 | the hits are those of all passes, as a multiset, ordered by weight and phrase; the score is the sum of their weights cut at 1.5 |
| Drainer.ScoreInNumbers | services/verdict-api/internal/cryptodrainer/cryptodrainer.go:91-105 | the score of every input in numbers: nothing for an exempt host, else the weights of the occurring phrases cut at 0.35, 0.30, 0.30, 0.25 and 0.25, the indicator weights and the bonus, together cut at 1.5 |
| Drainer.MethodHitIs | services/verdict-api/internal/cryptodrainer/cryptodrainer.go:152-197 | the hit of an indicator, 0.25, 0.15, 0.20, 0.15 or 0.20, by the first method, in this order, that occurs |
| Drainer.BonusIs | services/verdict-api/internal/cryptodrainer/cryptodrainer.go:244-271 | 0.20 for one lure with one brand, 0.40 for more pairs, 0.30 for two lures without a brand |
| Drainer.BonusHitNames | services/verdict-api/internal/cryptodrainer/cryptodrainer.go:225-268 | the hit that reports the bonus names the first occurring lure and the first occurring brand |
| Drainer.LureHitNames | services/verdict-api/internal/cryptodrainer/cryptodrainer.go:244-256 | without a brand it names the first two lures |
| Drainer.ReportedSource | services/verdict-api/internal/cryptodrainer/cryptodrainer.go:115-128 | a phrase is reported with the first of URL, SLD, title, visible and OCR text in which it occurs |
| Drainer.HitsAreFound | services/verdict-api/internal/cryptodrainer/cryptodrainer.go:115-128 | a phrase is a hit, with its weight and source, exactly if it occurs in one of the five texts |
| Drainer.Result.AddCategory | services/verdict-api/internal/cryptodrainer/cryptodrainer.go:115-138 | the score grows by the smaller of the category's total and its cap, and the hits by the rescaled matches |
| Drainer.Result.AddWalletMethodSignals | services/verdict-api/internal/cryptodrainer/cryptodrainer.go:152-198 | one hit per indicator by first matching method, and their weights added |
| Drainer.Result.AddSLDCompositeBonus | services/verdict-api/internal/cryptodrainer/cryptodrainer.go:210-279 | the bonus of the pair loop and its fallback, and the hit that reports it |
| Drainer.CategoryIsCapped | services/verdict-api/internal/cryptodrainer/cryptodrainer.go:129-135 | the weights of a category's hits add up to the smaller of total and cap |
| Drainer.HitsAreScaled | services/verdict-api/internal/cryptodrainer/cryptodrainer.go:129-137 | a category above its cap keeps its hits with their weights scaled by cap over total |
| Drainer.HitsAddUp | services/verdict-api/internal/cryptodrainer/cryptodrainer.go:95-105 | the weights of all hits add up to the score before the overall cut |
| Drainer.OrderedMeans | services/verdict-api/internal/cryptodrainer/cryptodrainer.go:106-111 | the order of the hits: heavier first, equals by phrase |
| Drainer.SortedIs | services/verdict-api/internal/cryptodrainer/cryptodrainer.go:106-111 | sorting keeps the hits as a multiset and orders them |
| Drainer.BonusMonotone | services/verdict-api/internal/cryptodrainer/cryptodrainer.go:244-271 | the bonus is monotone in lures and brands across the fallback |
| Drainer.ScoreIsMonotone | services/verdict-api/internal/cryptodrainer/cryptodrainer.go:91-113 | extending any text or appending indicators never lowers the score |
| Drainer.GrownIndicatorLosesIff | services/verdict-api/internal/cryptodrainer/cryptodrainer.go:152-197 | exactly when a longer indicator text loses weight to a shadowing method |
| Drainer.GrownIndicatorLowersScoreIff | services/verdict-api/internal/cryptodrainer/cryptodrainer.go:91-105 | growing one indicator lowers the score exactly if the host is not exempt, the indicator comes to be shadowed and the uncut score is then below 1.5 |
| Drainer.GrownIndicatorLowersScore | services/verdict-api/internal/cryptodrainer/cryptodrainer.go:152-197 | an indicator setApprovalForAll that grows a personal_sign lowers every score up to the cut |
| CsvLine.ParseCSVLine | services/scheduler/internal/feeds/feeds.go:159-177 | the loop computes the scan whose laws follow |
| CsvLine.FieldsPartitionTheLine | services/scheduler/internal/feeds/feeds.go:163-176 | one field more than there are commas outside quotes; together the fields are the line minus quotes and separators |
| CsvLine.ReadsBackStripped | services/scheduler/internal/feeds/feeds.go:157-177 | reading back what section 2 of RFC 4180 prints gives every field without its quote characters |
| CsvLine.RoundTripIff | services/scheduler/internal/feeds/feeds.go:157-158 | the round trip holds exactly for fields without a quote |

## Left out

- `normalizeURLForCoalesce`: the coalescing key is a parameter; its case folding and slash trimming add only easy members.
- Coalescer: the start of `fn` is not a step of its own; overlap is stated for the interval from registration to the return of `fn`, which contains the run.
- Transport and storage plumbing: HTTP, DNS and DoH servers, Redis and Postgres clients, websockets, the crt.sh query itself. Redis errors, which make the limiter admit and the ledger lose a write, appear only as a lost write of the ledger.
- Rebind.Filter: the early return for a missing message; its only caller has checked that before.
- Ledger.Write: the commands of one pipeline are taken together; a concurrent write for the same key could fall between them.
- DnsPath.MatchMeansReturned: the reader is keyed by the client id of the request and the writer by the source address of the query, so the theorem speaks of equal ledger keys.
- Policy verdicts, trust scores and page classes; the crawl's per-page verdicts, hidden-element counts, overlay counts and download summaries.
- DeepScan.Scan: per-page timeouts appear as pages without a cached render, the deadline as a number of turns.
- Resolver.Resolve: lookups are inputs; metrics, query log and the asynchronous verdict write are not modelled.
- NeverBlock.IsNeverBlock: the shared-hosting list is a parameter, and hot reload under the lock is not modelled.
- SessionLog.SessionLogger.Write: no I/O errors, and the hourly retention sweep, which removes whole past days, is not modelled.
- RateLimit.Limiter.Handle: key derivation and counter update happen at one time; body peeking and forwarded-address parsing are not modelled.
- Navigation.AtMostFiveHolds: a browser restart clears the counters, so the bound is for runs without one; storage errors, which disable the throttle, are not modelled.
- NavigationAwaits.PassesWithinApplies: reading the clock and storing the stamp of an apply are one step; the hashing in front of each storage key, which touches no state, is not a step.
- VerdictCache.RefinesLastWrite: each handler is one step; the two storage writes of a BLOCK are not separated, nor is the unawaited clean-up.
- HoldingPage.NeverJustWaiting: timers fire when due; the progress ticker and page texts are not modelled.
- HoldingPage.StrandedIff: an assignment to `location.href` is taken to leave the page; whether the browser follows it for a target that is not http(s) is not modelled.
- EditDistance.Matches: texts are sequences of characters, so invalid UTF-8 is not represented.
- Case folding and trimming are those of ASCII.
- Addresses: parsing and printing of addresses are parameters of the theorem that needs them.
- Detectors that are tables or regular expressions, image inference, the user interface, the Windows client, seeders and report scripts.
