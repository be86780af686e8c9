# Verified model of the DNS server's stateful core

The server answers queries by recursion from the root servers. This project models the
machinery that makes its answers right and its memory bounded, and proves what that machinery
guarantees on every run: the resolver, the cache and the file it is saved to, the rate
limiter, the domain filter, and the statistics and failover tables.

Objects whose methods update fields are classes with loops where the source has loops; each
is proved against specification functions or against the run of a state machine, and the laws
are lemmas about those. The laws are stated in the fields of messages, records, entries and
list lines, and not in the functions the code is proved against, so that a function and its
code cannot be wrong in the same way. Clock readings are integers (nanoseconds) that never decrease, floats
are reals, and whatever the program cannot control (the network, the context, file I/O, the
order in which Go walks a map) is arbitrary or a parameter.

Run `dafny verify dfyconfig.toml` to check everything.

| file | what it holds |
|---|---|
| `RateLimit.dfy` | the token bucket: an exact law of admission over every window, and exactly when the collector of stale buckets is invisible |
| `InFlight.dfy` | deduplication of concurrent requests as an interleaving state machine, with its inductive invariant |
| `Recursion.dfy` | the call trees that `resolveIterative` can leave, for any network |
| `RecursionLaws.dfy` | laws of every call tree: clean messages, linked CNAME chains, depth, cost |
| `CallTrees.dfy` | what the call trees amount to, reply by reply and message by message: which replies end a call, which are followed, what is asked of whom, which addresses a referral gives |
| `IterativeResolver.dfy` | the resolver object; each method leaves a call tree that `Recursion` allows |
| `WholeResolver.dfy` | deduplication, recursion, cache and restarts taken together |
| `CacheSteps.dfy` | the cache as interleaved steps, `Get` being split at its lock boundaries |
| `CacheLaws.dfy` | laws of every run of the cache: refinement of a lossy last-write map, size, conservation, eviction |
| `Lifetimes.dfy` | how long entries live, and what a hit serves, in seconds and in the records themselves |
| `Cache.dfy` | the cache object; its history is a legal run of `CacheSteps` |
| `Snapshots.dfy` | export, file contents and restoring; what a restart brings back |
| `Persistence.dfy` | the object that saves and loads, and a whole restart |
| `Text.dfy`, `Filter.dfy` | hosts-file parser and parent-walking matcher against a label-suffix specification |
| `FilterLaws.dfy` | parser and matcher together, in terms of the text of the lines and of names as they are written |
| `Reload.dfy` | reloads of the lists interleaved with lookups and with each other |
| `Counters.dfy` | counters bounded by eviction, and their sums |
| `ClientStats.dfy` | least-recently-seen eviction of clients |
| `Metrics.dfy` | the query-log ring, the domain counters, the partial selection sort |
| `Failover.dfy` | the health table and its stickiness |
| `Dns.dfy` | names and when two are the same, messages, the two keys built from a question |
| `Selections.dfy`, `Options.dfy`, `Arithmetic.dfy` | selections from a sequence in order; helpers |

## Findings

Five properties that one might expect of the code do not hold of it in general. Each has a
run that breaks it and the exact condition under which that can happen:

- Collecting stale buckets changes answers exactly when `rate * (2 * cleanup + 1ns) < burst`
  and the burst is positive: `CollectorInvisibleExactlyWhenSafe`, `SafeInIntegers`; the run is
  in `CollectedClientIsServed` and `KeptClientIsRefused`. Under the same condition, and no other, when
  neither rate nor burst is negative, some client gets more than the burst plus the accrued rate in some interval:
  `BoundsEveryIntervalExactlyWhenSafe`. What holds of every configuration is
  `AdmitsExactlyWhatFitsSinceCollection`.
- "max resolution depth exceeded" is reachable exactly when `MaxDepth < 0`, or when
  `MaxCNAMEChain >= MaxDepth > 0`, an attempt is made and there is a root server to ask:
  `DepthErrorExactly`; the run is `LoopingCallIsTooDeep`.
- A `Get` that found an expired entry may delete a newer, unexpired one. It does so exactly when
  the last `Set` of the key since its read stored one: `StaleDeleteExactly`. There is such a run
  exactly when one of the configured lifetimes is not negative, that is, whenever an entry can be
  fresh at all: `StaleDeleteIsPossibleExactly`, `StaleDeleteLosesAFreshEntry`. It only ever causes
  misses: `HitIsTheLastSetAtItsRead`, `LossesAreExplained`.
- A restart does not always bring back just what survives; `RestoresExactlyTheSurvivors` has the
  exact condition. If the file was written, all live entries have to have been exported and to lead
  back to their keys. They lead back exactly when they were asked for in class IN, because the
  resolver rewrites the class of every question: `RegeneratesExactlyInClassIN`; `OtherClassesAreLost`
  is a cache that does not come back. Up to 100000 entries are all exported; of more survivors than
  that some are lost. If nothing was exported or the file could not be written, the older file stays
  in place, and what is alive in it comes back with a whole new lifetime: `OlderEntriesComeBack`;
  `DrainedCacheComesBack` is a cache that was empty and comes back full.
- The table of clients outgrows its limit exactly when a new client finds it full with the empty
  string as the address of an oldest client: `LimitBreaksExactly`. It then grows without bound:
  `EmptyAddressLiftsTheLimit`. The empty address can only come from a caller of `RecordQuery`. The
  one caller passes `extractClientIP` (internal/server/server.go:450-463), whose branches for UDP
  and TCP addresses never give it, so the server as it stands does not meet this.

Also, a record's TTL zero becomes 30 seconds for the whole message, so a positive answer can be
kept longer than a record allows: `OutlivesARecordExactly` says exactly when. A client asking
at the very instant of expiry is served one second, so it may keep the record a whole second
past the expiry and not strictly less: `HitsCountDown`.

## Model

| member | source | states |
|---|---|---|
| RateLimit.TokensAreTightestHeadroom | internal/ratelimit/ratelimit.go:53-65 | After any visits of a client, its token count is the least, over all windows opened by a visit, of burst plus accrued rate minus admissions, and some window attains it |
| RateLimit.AdmitsExactlyWhatFits | internal/ratelimit/ratelimit.go:39-69 | A request is admitted if and only if admitting it breaks neither the burst nor burst-plus-rate over any window opened by an earlier request, for every configuration and history |
| RateLimit.EveryIntervalIsBounded | internal/ratelimit/ratelimit.go:53-65 | In any interval of time a client is admitted at most burst plus what the rate accrues over the interval |
| RateLimit.OtherClientsNeverMatter | internal/ratelimit/ratelimit.go:43-51 | Without collection, a client's bucket depends on that client's request times alone |
| RateLimit.SafeCollectorKeepsTokens | internal/ratelimit/ratelimit.go:43-59 | If an idle bucket is full by the time it may be collected, every request of every run finds the same tokens with and without collection |
| RateLimit.CollectedClientIsServed | internal/ratelimit/ratelimit.go:98-108 | A client that spent its burst and was collected gets a whole second burst |
| RateLimit.KeptClientIsRefused | internal/ratelimit/ratelimit.go:53-68 | Without collection, one of the requests of a second burst is refused, if the configuration is not safe |
| RateLimit.CollectorInvisibleExactlyWhenSafe | internal/ratelimit/ratelimit.go:98-108 | Collection changes no answer on any run if and only if the configuration is safe: an idle bucket is full by the time it may be collected, or nothing is ever admitted |
| RateLimit.SafeInIntegers | internal/ratelimit/ratelimit.go:102-106 | When a configuration is safe, in integers, as an operator would check it |
| RateLimit.LimiterAdmitsExactlyWhatFits | internal/ratelimit/ratelimit.go:39-108 | In a safe configuration, any clients, any interleaving, collection at any time: a request is admitted if and only if it breaks no window over what its client was ever told |
| RateLimit.AdmitsExactlyWhatFitsSinceCollection | internal/ratelimit/ratelimit.go:39-108 | In every configuration, run and clock: a request is admitted if and only if it breaks no window over what its client was told since its bucket was last collected |
| RateLimit.LimiterBoundsEveryInterval | internal/ratelimit/ratelimit.go:39-108 | In a safe configuration every client is admitted at most burst plus accrual in every interval of every run |
| RateLimit.BoundsEveryIntervalExactlyWhenSafe | internal/ratelimit/ratelimit.go:39-108 | The limiter keeps that bound on every run if and only if the configuration is safe |
| RateLimit.TwoBurstsAreAdmitted | internal/ratelimit/ratelimit.go:98-108 | A client that spends its burst, is collected and returns is admitted two bursts, in any configuration |
| RateLimit.Limiter.Allow | internal/ratelimit/ratelimit.go:39-69 | The answer is that of the run so far at the clock reading taken: yes exactly when no window over what this client was told since its last collection is broken |
| RateLimit.Limiter.CleanupStale | internal/ratelimit/ratelimit.go:98-108 | The loop deletes exactly the stale buckets: the run grows by a sweep |
| RateLimit.AccruesAtTheRate | internal/ratelimit/ratelimit.go:53-55 | Tokens accrue at the configured number per second |
| RateLimit.BlockedCountsTheRefused | internal/ratelimit/ratelimit.go:61-68 | The count in a bucket is the number of requests refused since its client was last collected, and its time that of the last request |
| Dns.InflightKeyIsInjective | internal/resolver/resolver.go:76 | The in-flight key determines name, type and class |
| Dns.NamesCompareWithoutCase | internal/cache/cache.go:77-79 | Two names have the same canonical name if and only if at each place they have the same character or the two cases of one ASCII letter, but for a final dot that one of them may lack |
| Dns.LowerExactly | internal/filter/filter.go:332 | Lower-casing gives the one text that is the same but for case and has no capital |
| Dns.CacheKeysCollideExactly | internal/cache/cache.go:77-79 | Two questions share a cache key if and only if their names agree but for case and a final dot and their type and class codes are equal or both without a mnemonic |
| InFlight.RunKeepsInv | internal/resolver/resolver.go:63-115 | Every run, whatever interleaves with what, keeps the protocol invariant |
| InFlight.ReachableStatesAreSound | internal/resolver/resolver.go:63-115 | Every reachable state satisfies the invariant |
| InFlight.OneLeaderPerQuestion | internal/resolver/resolver.go:77-107 | Two requests between insert and delete ask the same question only if they are the same request |
| InFlight.CloseFollowsBothStores | internal/resolver/resolver.go:99-102 | A channel is closed only when it is open, and after message and error are both final |
| InFlight.ClosedEntriesAreFinal | internal/resolver/resolver.go:99-102 | Once closed an entry never changes again, on any run, so it is closed only once |
| InFlight.RemovesOwnSlot | internal/resolver/resolver.go:104-107 | A leader's delete removes its own entry and no other |
| InFlight.TableIsEmptyWithoutLeaders | internal/resolver/resolver.go:92-107 | The table is empty if and only if no leader is active |
| InFlight.JoinedResultIsTheLeaders | internal/resolver/resolver.go:78-86 | A joined request returns exactly what the leader of its own question resolved |
| InFlight.SuccessIsCachedOnce | internal/resolver/resolver.go:109-114 | A leader that returned stored its result if and only if it was a success, once, under the question asked |
| InFlight.OpenEntryHasRunnableLeader | internal/resolver/resolver.go:92-102 | Every entry not yet closed has a leader whose next step is enabled |
| InFlight.LeaderClosesItsEntry | internal/resolver/resolver.go:96-102 | Whatever the scheduler does in between, so many steps of the leader close the entry |
| InFlight.WaiterIsServed | internal/resolver/resolver.go:80-89 | A waiter that is not cancelled can wake after at most four steps of its leader, and returns what was published |
| InFlight.Resolver.Call | internal/resolver/resolver.go:63-76 | The request arrives with its name qualified by a final dot and its own key; the invariant is kept |
| InFlight.Resolver.AfterCacheGet | internal/resolver/resolver.go:66-73 | A hit is returned at once as it was found; a miss goes on |
| InFlight.Resolver.LookUpOrRegister | internal/resolver/resolver.go:75-94 | Under the lock: join the entry of the key or become its leader |
| InFlight.Resolver.Select | internal/resolver/resolver.go:81-89 | A waiter returns the published result once closed, or gives up when cancelled |
| InFlight.Resolver.Close | internal/resolver/resolver.go:102 | The step that closes the channel |
| InFlight.Resolver.Remove | internal/resolver/resolver.go:104-107 | The step that deletes the slot |
| InFlight.Resolver.AfterResolution | internal/resolver/resolver.go:96-97 | The leader carries exactly what its resolution gave |
| InFlight.Resolver.Return | internal/resolver/resolver.go:109-114 | The step that caches a success; the leader returns what it carried |
| RecursionLaws.ResultsAreClean | internal/resolver/resolver.go:263-284 | No result and no cache write of any call tree has SERVFAIL, an OPT record or AA; each has RA and the qualified question in class IN |
| RecursionLaws.AnswerIsALinkedChain | internal/resolver/resolver.go:156-165 | A successful answer is CNAME-only segments that link the name asked to the terminal name, then the terminal answer verbatim; at most MaxCNAMEChain+1 hops; rcode, authority and additional are the terminal response's |
| RecursionLaws.DepthStaysCapped | internal/resolver/resolver.go:252-258 | No call below one within the cap is deeper than max(0, MaxDepth-5, MaxCNAMEChain+1) |
| RecursionLaws.DepthErrorExactly | internal/resolver/resolver.go:119-121 | A request can fail with the depth error if and only if MaxDepth is negative, or MaxCNAMEChain is at least MaxDepth, which is positive, and an attempt and a root server are there |
| RecursionLaws.LoopingCallIsTooDeep | internal/resolver/resolver.go:156-161 | A network that answers every question with the same CNAME makes it happen |
| RecursionLaws.AnsweredIsBounded | internal/resolver/resolver.go:184-237 | A query that is answered makes at most two exchanges per attempt and server |
| RecursionLaws.UnsuccessfulIsBounded | internal/resolver/resolver.go:184-237 | A query that is given up makes at most two exchanges per attempt and server |
| RecursionLaws.MessagesAreCounted | internal/resolver/resolver.go:206-214 | The cost of a call tree is the number of messages among the events it leaves |
| RecursionLaws.CostIsBounded | internal/resolver/resolver.go:118-181 | The exchanges of a whole resolution, nested calls included, are within the bound of its depth |
| RecursionLaws.CostBoundRecurrence | internal/resolver/resolver.go:133-178 | The bound obeys E(d) = (MaxDepth-1) * (Q + K*A) + Q + max(K*A, C) with Q = 2*S*(Retries+1), A = E(d+1) above depth MaxDepth-5 and else 0, C = E(d+1) up to depth MaxCNAMEChain and else 0 |
| RecursionLaws.CostBoundSimply | internal/resolver/resolver.go:133-178 | Hence E(d) <= MaxDepth * (2*S*(Retries+1) + K*E(d+1)) + E(d+1) |
| RecursionLaws.CostBoundBelowTheGuards | internal/resolver/resolver.go:253-333 | At depths past both guards a call costs at most its own queries, MaxDepth of them |
| CallTrees.QueriesWalkTheServers | internal/resolver/resolver.go:195-234 | Every exchange of a query goes to the server of its place in the order; the first is over UDP, and each other one follows a failure, SERVFAIL or truncation: the same attempt over TCP after truncation, the next attempt after a failure, the next server after SERVFAIL or the last attempt |
| CallTrees.AnswerIsTheLastReply | internal/resolver/resolver.go:185-234 | The answer of a query is the reply of its last exchange, not SERVFAIL and not truncated over UDP; the servers asked are those given, in some order |
| CallTrees.GivesUpAfterItsServers | internal/resolver/resolver.go:195-237 | A query is given up only after the last attempt at the last server, or when cancelled between two servers; without servers or attempts nothing is sent |
| CallTrees.FinalRepliesAreHandedOn | internal/resolver/resolver.go:151-154 | A call whose reply is authoritative or NXDOMAIN ends at once and hands on its answer, authority and code, and its additional records but for OPT |
| CallTrees.AnswersAreFollowedExactly | internal/resolver/resolver.go:156-165 | A call whose reply is neither and has answers follows it, or refuses to for the length of the chain, if and only if another type than CNAME was asked for and the first CNAME record of the name has a target: then it asks for that target, one level deeper; otherwise it hands the reply on |
| CallTrees.HopsFollowTheFirstCname | internal/resolver/resolver.go:156-165 | No reply of a chain of CNAMEs is authoritative or NXDOMAIN, and the first CNAME record of the name in each points to the next name |
| CallTrees.OnlyReferralsGoOn | internal/resolver/resolver.go:150-174 | The loop goes on only after replies that are not authoritative, not NXDOMAIN, have no answers and name servers |
| CallTrees.EmptyRepliesAreHandedOn | internal/resolver/resolver.go:167-177 | A reply without answers is handed on if it names no servers, or none of them has an address |
| CallTrees.TurnsGoOnToTheReferredServers | internal/resolver/resolver.go:129-146 | The first turn asks the root servers, every later one the addresses the referral before it gave, of which there are some |
| CallTrees.LastTurnAsksTheReferredServers | internal/resolver/resolver.go:129-146 | So does the turn that ends the call, which is at most the MaxDepth-th |
| CallTrees.ReferralsGiveGlueOrLookups | internal/resolver/resolver.go:288-349 | A referral gives the A and AAAA addresses the additional section has for its name servers, names compared without case, server by server in order; if there are none, what looking up each server finds: the A records the cache has, or, above depth MaxDepth-5 only, those of a nested call, whose success is cached |
| CallTrees.FailuresAreExplained | internal/resolver/resolver.go:118-181 | A call succeeds if and only if its chain of CNAMEs ends in a reply that is handed on; otherwise the last call of the chain was too deep, cancelled, without a usable reply, at the end of the chain allowed, or had followed MaxDepth referrals |
| CallTrees.MessagesAskTheirCallsQuestion | internal/resolver/resolver.go:192-206 | Every message sent on account of a resolution belongs to a query of a call in its tree: it carries that call's qualified name and type in class IN, and went to the server and over the transport of its exchange |
| CallTrees.CallsDescend | internal/resolver/resolver.go:252-339 | The calls within a call are deeper than it, and ask for its own type or, for name servers, A |
| CallTrees.CnamesSelects | internal/resolver/resolver.go:269-274 | What an answer takes over of a reply that is followed are its CNAME records, in order |
| IterativeResolver.Resolver.ResolveIterative | internal/resolver/resolver.go:118-181 | Terminates for any network and leaves an allowed call tree, to which the laws of CallTrees apply: returns its outcome, makes its writes, and sent and looked up exactly its events; is cancelled only if the context has ended, and at once if it had before |
| IterativeResolver.Resolver.QueryNameservers | internal/resolver/resolver.go:184-237 | Sends the question, with the name qualified, in class IN; the events are those of an exchange log the retry loops allow, and a reply is usable and the last in it; without one every server was exhausted or the context ended |
| IterativeResolver.Resolver.ExtractCname | internal/resolver/resolver.go:240-249 | The target of the first CNAME record owned by the name |
| IterativeResolver.Resolver.FollowCname | internal/resolver/resolver.go:252-285 | Refuses beyond the chain limit; otherwise resolves the target one level deeper and combines |
| IterativeResolver.Resolver.BuildReply | internal/resolver/resolver.go:352-372 | The loop keeps exactly the additional records that are not OPT |
| IterativeResolver.Resolver.ExtractReferral | internal/resolver/resolver.go:288-349 | The addresses are the glue of the named hosts, or else what looking up each host gave |
| IterativeResolver.Resolver.ResolveAndCache | internal/resolver/resolver.go:380-390 | From depth 0: the outcome and the writes of an allowed call tree, then the result if it is a success; only clean messages are cached, and the depth error occurs only in the configurations named |
| WholeResolver.LeadersReturnClean | internal/resolver/resolver.go:63-115 | In every interleaving in which leaders get their results from the recursion, a leader returns a clean message for its own question |
| WholeResolver.JoinersReturnClean | internal/resolver/resolver.go:78-86 | In such an interleaving a request that joined returns a clean message for its own question, the leader's being the same |
| WholeResolver.StoresAreClean | internal/resolver/resolver.go:109-112 | In such an interleaving every store is clean and under the key of the question asked |
| WholeResolver.FedMessagesAreClean | internal/resolver/resolver.go:342-389 | Every write made on the way to an answer, and that of a prefetch, is clean too |
| WholeResolver.HitsAreClean | internal/resolver/resolver.go:66-73 | A hit on a cache fed by the resolver, now or before restarts, is a clean message for a question of its key |
| WholeResolver.EveryAnswerIsClean | internal/resolver/resolver.go:63-115 | Every message any request returns, from the cache, another request's resolution or its own, is a clean one for a question of its key |
| WholeResolver.FedCacheComesBackExactly | internal/persistence/persistence.go:95-179 | However often the server was restarted: a cache fed by the resolver comes back with exactly the keys that survive if and only if the restart meets the condition of RestoresExactlyTheSurvivors, and with the same messages and lifetimes if its file was written |
| CacheLaws.RunConserves | internal/cache/cache.go:82-247 | In all interleavings the cache holds at most max(1, maxSize) entries, and keys inserted = entries held + evictions + entries deleted by Get |
| CacheLaws.TableHoldsLastWrites | internal/cache/cache.go:163-170 | In all interleavings the table is part of the map of last writes |
| CacheLaws.GettersFollowTheirReads | internal/cache/cache.go:82-104 | What a Get carries is the last write at its read, expired or not as its test found |
| CacheLaws.StaleDeleteExactly | internal/cache/cache.go:94-99 | A Get deletes an entry that has not expired if and only if somebody Set the key after the Get had read it and the last to do so stored one that has not expired |
| CacheLaws.StaleDeleteIsPossibleExactly | internal/cache/cache.go:94-99 | A run in which a Get deletes an entry that has not expired exists if and only if one of the configured lifetimes is not negative, whatever the size of the cache |
| CacheLaws.StaleDeleteLosesAFreshEntry | internal/cache/cache.go:94-99 | A run in which it does, for any key, any size and any message whose lifetime is not negative |
| CacheLaws.LossesAreExplained | internal/cache/cache.go:82-247 | Whatever was Set and is not there any more was taken out as it was Set, because it had expired, or was oldest in a full cache with nothing expired, or by a stale delete |
| CacheLaws.SetMakesRoom | internal/cache/cache.go:157-170 | A Set puts its entry in and takes others out only of a full table: only expired entries and all that had expired at the start, or, if none had, the one created first |
| CacheLaws.CleanTakesOutTheExpired | internal/cache/cache.go:237-247 | A cleanup takes out only expired entries, and all that had expired at the start |
| CacheLaws.CountersCountTheRun | internal/cache/cache.go:89-104 | Hits, misses and evictions are the number of steps that hit, that found nothing or something expired, and of the entries taken out |
| Lifetimes.LifetimeExactly | internal/cache/cache.go:138-152 | NXDOMAIN and an empty answer with success live for the configured time; any other message for the least TTL of its answer and authority, at most 3600 seconds and 30 for zero, between the configured bounds |
| Lifetimes.SetEntryLivesAsItShould | internal/cache/cache.go:163-170 | The entry a Set leaves was made while it held the lock and expires that long after |
| Lifetimes.OutlivesARecordExactly | internal/cache/cache.go:138-152 | A positive answer is kept longer than some record of it allows if and only if some record has TTL zero or one below the configured minimum, the maximum permitting |
| Lifetimes.HitIsTheLastSetAtItsRead | internal/cache/cache.go:82-129 | A hit is the message last Set for the key at the read step, not past its expiry at the test, the same but for TTLs, with OPT records untouched |
| Lifetimes.HitsCountDown | internal/cache/cache.go:107-125 | Every record of a hit but OPT has a TTL of at least one; with a second or more left it runs out within the second before the expiry of the entry, otherwise less than a second after it, or exactly a second after at the very instant |
| Lifetimes.HitsAge | internal/cache/cache.go:107-128 | Of two hits on one Set no record of the later has a longer TTL, and it says prefetch if the earlier did |
| Lifetimes.PrefetchThresholdIsExact | internal/cache/cache.go:36-39 | For ratios in [0,1] the flag says exactly that less than that part of the lifetime is left, truncation notwithstanding |
| Lifetimes.PrefetchThresholdIsCut | internal/cache/cache.go:36-39 | For other ratios the threshold is a whole number of nanoseconds less than one nearer to zero |
| Cache.Cache.Get | internal/cache/cache.go:82-129 | Takes the steps of a Get and returns the reply of the run: refreshed message, prefetch flag, hit count raised; exactly one of hits and misses grows |
| Cache.Cache.ExtractTTL | internal/cache/cache.go:175-194 | The loops find the least TTL of answer and authority, at most an hour, half a minute for zero |
| Cache.Cache.Set | internal/cache/cache.go:132-172 | A nil message changes nothing; otherwise the run grows by a legal Set of that key, message and lifetime |
| Cache.Cache.EvictOldest | internal/cache/cache.go:197-219 | Removes expired entries; if there were none, one entry of minimal creation time |
| Cache.Cache.Cleanup | internal/cache/cache.go:237-247 | Removes what expired by the time it was looked at, and keeps what had not at the start |
| Cache.Cache.PrefetchCandidates | internal/cache/cache.go:263-291 | The entries hit three times or more are gone through, each once |
| Cache.ListedAreDue | internal/cache/cache.go:277-288 | What is listed is the question of such an entry, not expired at the start and due by the end of the pass |
| Cache.DueAreListed | internal/cache/cache.go:277-288 | Such an entry that is due at the start and not expired by the end is listed |
| Cache.Cache.ExportEntries | internal/cache/cache.go:304-343 | Exports distinct unexpired entries; all that can be, or 100000 |
| Snapshots.ExportsAreTheEntries | internal/cache/cache.go:311-338 | Each exported record has the question, the packed message and the times of a table entry not expired at the start; none is exported twice, and at most 100000 are |
| Snapshots.ExportsAreComplete | internal/cache/cache.go:311-338 | Below that number every entry is exported that has a question, can be packed and has not expired by the end |
| Snapshots.RegeneratesExactlyInClassIN | internal/resolver/resolver.go:352-354 | A resolver-cached message's question leads back to its key if and only if it was asked for in class IN |
| Snapshots.ResolverRunsFill | internal/resolver/resolver.go:109-112 | If every Set is a write of the resolver, every entry in the table is |
| Snapshots.RestartIsARoundTrip | internal/persistence/persistence.go:144-179 | A cache restarted with the same size has room for what was saved of it, so nothing is evicted; an older file that stays in place has to fit |
| Snapshots.RestoresExactlyTheSurvivors | internal/persistence/persistence.go:95-179 | The keys restored are exactly those alive at the load if and only if: the file cannot be read and there are none; or nothing was exported and nothing in the older file is alive; or the file was written and all of those were exported and regenerate their keys; or it could not be written and the older file names just them |
| Snapshots.SmallCachesAreExportedWhole | internal/cache/cache.go:335-338 | A cache of at most 100000 entries is exported whole |
| Snapshots.TooManySurvivorsAreNotRestored | internal/cache/cache.go:335-338 | Of more than 100000 survivors some are lost |
| Snapshots.OtherClassesAreLost | internal/resolver/resolver.go:352-354 | A message asked for in another class than IN, cached alone and saved, does not come back under its key |
| Snapshots.DrainedCacheComesBack | internal/persistence/persistence.go:103-106 | A message is cached and saved, another takes its place and expires: the save that follows has nothing to write, and the restart brings back the first |
| Snapshots.OlderEntriesComeBack | internal/persistence/persistence.go:103-106 | Whatever comes back after a save that wrote nothing is from the older file, with the whole of its lifetime again |
| Snapshots.RestoredEntriesAreTheSame | internal/persistence/persistence.go:160-176 | From a file that was written, each entry that regenerates its key comes back with its old message and its old lifetime, counted from the load |
| Snapshots.RestoredIsResolverFilled | internal/persistence/persistence.go:160-176 | What is restored is as the resolver would have cached it, and regenerates its keys, if that holds of the older file |
| Persistence.Persistence.Save | internal/persistence/persistence.go:95-141 | The file becomes the live part of the export; an empty export or a failed write leaves the old file, and only the latter is an error |
| Snapshots.KeepLiveSelects | internal/persistence/persistence.go:108-115 | What is written are the entries that expire later than the time of writing, in the order of the export |
| Persistence.Persistence.Load | internal/persistence/persistence.go:144-179 | Every live, readable entry of the file is Set, later ones over earlier ones, and counted; a missing file is no error |
| Snapshots.LoadingKeepsTheLast | internal/persistence/persistence.go:164-176 | A key is loaded if and only if a live, readable record of the file leads to it, and holds the message of the last that does |
| Snapshots.RestoredAreCounted | internal/persistence/persistence.go:164-178 | The number returned is that of the live, readable records |
| Persistence.Restart | internal/server/server.go:204-213 | Saving, making a new cache and loading is such a restart, so it meets the law above; and if the resolver alone fed the cache and the file so far, it still did afterwards |
| Filter.ParentCovers | internal/filter/filter.go:199-202 | Every parent looked up is a name above the domain |
| Filter.CoverIsAParent | internal/filter/filter.go:199-202 | Every proper name above the domain is looked up |
| Filter.NamedIsCanonical | internal/filter/filter.go:333-347 | Every listed name is in the canonical form that the matcher looks up |
| FilterLaws.FirstWordComesFirst | internal/filter/filter.go:319 | The first word of a line stands between its leading blanks and the next blank, and the other words are those of the rest |
| FilterLaws.LineListsExactly | internal/filter/filter.go:310-347 | A line adds a name if and only if it is the qualified lower-case form of its only word, or of the second after 0.0.0.0 or 127.0.0.1, the first word starting with neither # nor !, and the word is not localhost, localhost.localdomain or an address |
| FilterLaws.CoversExactly | internal/filter/filter.go:191-205 | A listed name covers a name if and only if that is the same name or has it after one of its dots, case and a final dot aside |
| FilterLaws.BlocksExactlyWhatIsListed | internal/filter/filter.go:167-210 | Parser and matcher composed, in names as they are written: blocked if and only if the filter is enabled, the name is not one allowed by hand, and it is one denied by hand or at or below a word that some line lists |
| FilterLaws.AcceptedLinesAreCounted | internal/filter/filter.go:306-352 | The count of a list is the number of lines that list something |
| FilterLaws.ListsAreCountedTogether | internal/filter/filter.go:246-271 | The size stored is the number of such lines in all the lists together |
| FilterLaws.ReceivedSelects | internal/filter/filter.go:252-259 | The sources that cannot be read are left out, and the others are taken in order |
| Reload.TableIsOfOneReload | internal/filter/filter.go:246-268 | However reloads and lookups interleave, lookups use the first table or what all the lists of some one reload name |
| Reload.ReloadIsAllOrNothing | internal/filter/filter.go:246-268 | Beside a reload, the table is the old one until the swap and then names exactly what the lists of the reload name |
| Reload.LookupSeesOldOrNew | internal/filter/filter.go:167-210 | Every lookup beside a reload answers by the whole old or the whole new table |
| Reload.NewStaysNew | internal/filter/filter.go:266-268 | A reload that has swapped has done so for good, so no later lookup answers by the old table |
| Reload.LoadingIsARun | internal/filter/filter.go:246-268 | Reading the lists from beginning to end and swapping is such a reload, and leaves the table that LoadBlocklists leaves |
| Filter.Filter.IsBlocked | internal/filter/filter.go:167-210 | The answer is that of the label-suffix specification; exactly one counter moves while enabled |
| Filter.Filter.RecordBlocked | internal/filter/filter.go:462-483 | Counts the domain; beyond 10000 domains one of lowest count is forgotten |
| Filter.Filter.ParseHostsFile | internal/filter/filter.go:306-352 | Adds exactly the names of the lines, and counts the accepted lines |
| Filter.Filter.LoadBlocklists | internal/filter/filter.go:246-272 | Afterwards the table names exactly what the lists that could be read and the local files name |
| Filter.Filter.AddToWhitelist | internal/filter/filter.go:403-408 | Adds the canonical name |
| Filter.Filter.RemoveFromWhitelist | internal/filter/filter.go:411-416 | Removes the canonical name |
| Filter.Filter.AddToBlacklist | internal/filter/filter.go:419-424 | Adds the canonical name |
| Filter.Filter.RemoveFromBlacklist | internal/filter/filter.go:427-432 | Removes the canonical name |
| Counters.CountersAreTrueSinceEviction | internal/metrics/metrics.go:182-195 | A stored count is the number of records since the key's last eviction, never above the true count, and equal to it if the key was never evicted |
| Counters.StoredPlusEvictedIsCounted | internal/metrics/metrics.go:182-195 | Stored counts plus evicted counts equal the number of counts taken |
| Metrics.CountersCountTheLog | internal/metrics/metrics.go:161-195 | In terms of the query log, the queries logged but not yet counted aside: no stored count exceeds the number of queries for its domain, it equals that number if the domain was never evicted, and stored plus evicted counts are the number of queries |
| Metrics.RecordingTouchesTwoDomains | internal/metrics/metrics.go:182-195 | A query adds one and its latency to its domain's counter, or starts it with them; another counter goes only if the domain is new and the table is full, and then one with the lowest count, and the rest stay as they were |
| Metrics.KeptSinceEviction | internal/metrics/metrics.go:182-195 | What is stored of a domain is the number of its queries and the sum of their latencies since it was last evicted |
| Metrics.AverageIsTheMean | internal/metrics/metrics.go:238-246 | The average is the sum of the latencies over the count, in milliseconds |
| ClientStats.TrackedAreMostRecent | internal/clientstats/clientstats.go:195-211 | No client that is not tracked was seen after one that is |
| ClientStats.TrackedAreAsManyAsAllowed | internal/clientstats/clientstats.go:61-73 | Without the empty address the limit holds, and below it every client seen is tracked |
| ClientStats.TracksExactlyTheMostRecent | internal/clientstats/clientstats.go:57-90 | With clock readings that strictly increase, a set of clients is the most recently seen ones, as many as allowed, if and only if it is the tracked set |
| ClientStats.LimitBreaksExactly | internal/clientstats/clientstats.go:61-72 | A query can push the table over its limit if and only if it finds the table full, its client new, and no client seen less recently than the one with the empty address |
| ClientStats.EmptyAddressLiftsTheLimit | internal/clientstats/clientstats.go:195-211 | With the empty address the table grows without bound: under any limit a legal run reaches any number of clients while it stays the oldest |
| ClientStats.TotalsAreTrueSinceAdmission | internal/clientstats/clientstats.go:75-82 | Totals count the queries since admission, blocked counts the blocked ones among them |
| ClientStats.DomainCountsAreTrueSinceAdmission | internal/clientstats/clientstats.go:84-89 | A counted domain has its true count since admission; one that is not counted came only after the table was full |
| ClientStats.DomainCountsFitTheTotal | internal/clientstats/clientstats.go:84-89 | At most 100 domains, whose counts add up to at most the client's queries |
| ClientStats.TrackedWereSeen | internal/clientstats/clientstats.go:76 | A tracked client's last-seen time is the clock reading of its last query |
| ClientStats.RecordIsOfTheVisitsSinceAdmission | internal/clientstats/clientstats.go:66-80 | Its record has its address, the time it was admitted, and the sum of the latencies of its queries since |
| ClientStats.Tracker.RecordQuery | internal/clientstats/clientstats.go:57-90 | The history grows by this query, and the table is that of the history |
| ClientStats.Tracker.EvictOldest | internal/clientstats/clientstats.go:195-211 | Removes a client seen longest ago, unless its address is empty |
| Metrics.Metrics.RecordQueryDetail | internal/metrics/metrics.go:161-196 | The log grows by the entry; count and latency are added to the domain's counter, a new domain evicting one of lowest count when the table is full |
| Metrics.Metrics.EvictLowestDomain | internal/metrics/metrics.go:406-422 | Removes a domain of minimal count, unless the one picked is empty |
| Metrics.Metrics.GetRecentQueries | internal/metrics/metrics.go:199-215 | The last min(limit, records, capacity) entries, newest first; a limit that is not positive or too large means all |
| Metrics.Metrics.GetAllQueryLogs | internal/metrics/metrics.go:218-228 | The last min(records, capacity) entries, oldest first |
| Metrics.Metrics.GetTopDomains | internal/metrics/metrics.go:231-264 | The min(limit, n) highest counters, each once and in descending order; no domain left out counts more than any of them |
| Failover.OrderIsAPermutation | internal/failover/failover.go:127-141 | Every upstream is asked as often as it is configured |
| Failover.OrderIsStableHealthyFirst | internal/failover/failover.go:127-141 | One upstream comes before another if and only if it alone is healthy, or both or neither are and it was configured before |
| Failover.ServerIsAskedFirst | internal/failover/failover.go:114-121 | After an upstream served, those tried before it are unhealthy and it heads the next order, duplicates or not |
| Failover.ServedCallSticks | internal/failover/failover.go:85-125 | A call that was served leaves those it tried before unhealthy, and its upstream heads the next order |
| Failover.GivingUpLeavesNoneHealthy | internal/failover/failover.go:96-124 | A call that gives up without being cancelled leaves every upstream unhealthy |
| Failover.Failover.GetOrderedUpstreams | internal/failover/failover.go:127-141 | The loop yields the healthy, then the others |
| Failover.HealthAfterACall | internal/failover/failover.go:85-156 | After a call an upstream is healthy if and only if it served the call, or was healthy before and was not given up on |
| Failover.ExchangesAreBounded | internal/failover/failover.go:96-122 | A call makes at most upstreams times attempts exchanges |
| Failover.FallbackAsksTheQuestion | internal/failover/failover.go:90-92 | The query is for the qualified name and type in class IN, with recursion desired |
| Failover.Failover.Resolve | internal/failover/failover.go:85-125 | Disabled: nothing happens; otherwise all attempts are made in vain at each upstream of the order up to the one that serves, whose last reply, not SERVFAIL, is returned, or until the context ends or none is left; every exchange is with that upstream and carries the query of the call; the health changes that go with it |
| Failover.Failover.CheckUnhealthy | internal/failover/failover.go:208-230 | The probe asks each unhealthy upstream once for the name servers of the root, and makes healthy exactly those that answer with success |

## Left out

- Sockets, HTTP, SQLite, YAML, gob encoding, file rename, Windows service code, dashboard and HTML: I/O and library wrappers. Packing a message and unpacking it again is assumed to give it back.
- The request pipeline of internal/server, EDNS client subnet and local records: sums, branch order and single lookups.
- Escaped dots and non-ASCII case folding in names, scanner line limits, float rounding and the Go memory model: labels are unescaped ASCII, files are sequences of lines, floats are reals, steps are sequentially consistent.
- Whether a string is an IP address is a parameter of the filter, and the DNS library's mnemonic tables are parameters of the cache key, assumed injective and without slashes.
- The branch for a nil response without an error in resolveIterative: queryNameservers never returns that.
- Table entries that no caller keeps (buckets, in-flight entries, client records, counters) are values in a map rather than objects; cache entries are objects with their hit count.
- At most one resolution of a question over time: not true, since there is a gap between in-flight delete and cache write, and prefetches and name server lookups bypass the in-flight table.
- RFC 2308 section 5 (negative lifetimes from the SOA record): the code uses a configured lifetime.
- Whether the last save at shutdown gets to its end: a save that does not counts as one that could not write.
- The original expiry of a saved entry: a load restarts its lifetime.
- What the server does to a message after the resolver returned it: results of joined requests are compared with what was published.
- The order in which the clock readings of different Gets fall: a reading taken without the lock is only known to follow the earlier readings of the same Get.
- Which of two equally old entries, equally low counters or equally late clients goes first: any of them, as the order of Go's maps is arbitrary.
- Whitelist and blacklist files read at start: as list lines, without the address column.
- Latency statistics of upstreams, the latency histogram, last-check times, per-client summaries and the lists sorted by the library's sort.
- Interleavings of failover calls with the background probe; each is stated for itself.
- Which entries an export of more than 100000 drops: arbitrary, as the order of Go's maps is.
- What converting more than 2^32 seconds to 32 bits gives depends on the platform: a parameter. Lifetimes.HitsAge and Lifetimes.HitsCountDown speak of lifetimes that fit.
