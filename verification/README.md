# A verified model of pmesh's coordination, allocation and encoding logic

pmesh runs services on a mesh of nodes.  This project models the parts of it whose correctness is not
visible in any single function body: protocols that several nodes or goroutines run against one shared
word, key or map; control loops that must stay within configured bounds; and encodings that must read back
what was written.  Each module is one component of the repository.

| module | component |
|---|---|
| `Scheduler` | any number of nodes run one scheduled task, coordinated by a revisioned key |
| `LruCache` | concurrent map, separate atomic counter, self-starting and self-stopping cleaner |
| `RpcDuplex` | one multiplexed RPC connection: sequence numbers, pending map, shutdown |
| `KvCas` | compare-and-swap on values built from compare-and-swap on revisions |
| `Autoscaler` | cluster bounds and the tick loop of the process supervisor |
| `Deadline` | the shared termination deadline of a service process |
| `RateWindow` | the sliding-window rate limiter in one atomic word per window |
| `Subnet` | the allocator of loopback addresses |
| `LoadBalancer` | selection of an upstream |
| `Backoff` | the retry policy in its stepwise and direct form, and the retrier |
| `IpRange`, `IpMap` | 128-bit shifts, masks, comparison and range lookup |
| `Digest` | the binary form of a signed-URL digest |
| `JrpcStream` | the frames of the RPC connection |
| `TaskDelivery` | how a queued task is retried, acknowledged or terminated |
| `Snowflake` | identifiers and the build names made from them |
| `Bits`, `Common` | powers of two, division with remainder, bitwise operations on natural numbers; optional values, words and bytes |

Code that runs on one goroutine at a time, or under a lock, is modelled in its own form: classes whose
methods change fields, loops with invariants, each proved against a specification function whose
properties are the theorems.  Code that races is modelled twice where it has a retry loop: as a state
machine with one event per atomic access, over which safety is proved for every interleaving, and as the
method itself, with the writes of the other threads as an argument.  Beside safety, each state machine has
theorems on progress: what an operation that nobody disturbs achieves, from every reachable state.

`dafny verify dfyconfig.toml` checks the whole project.

## What the proofs found

The theorems marked "iff" below are exact: they give the condition under which the code keeps its promise
and show that it fails outside.  The conditions worth knowing:

- A scheduler rollback is lost exactly when the claim is no longer the newest revision, or some other key of
  the bucket was written after the revision the node had loaded and before its claim: the claim's revision is
  then not the loaded one plus one (`Scheduler.RollbackNeedsQuietBucket`, `Scheduler.LostRollback`).  It is
  never harmful: it cannot replace another node's write.
- A cleaner goroutine of the cache waits for ever exactly when its ticker was stopped and left no tick in its
  channel; that happens when the cache runs empty and is filled again before the ticker fires
  (`LruCache.CleanerMovesOnIff`, `LruCache.LeakedCleaner`).
- The autoscaler exceeds the configured maximum, by one, exactly when it scales automatically, does not
  start slowly, and minimum and maximum are equal (`Autoscaler.MaximumIsKeptIff`).  A scale-down streak of
  2^31 or more is cut to 32 bits, and some run then scales an instance down too early, unless the
  configuration never scales down: not automatic, no room above the minimum, or a negative lower threshold
  (`Autoscaler.StreakIsHonouredIff`).
- An RPC call that waits while 2^31 later calls are issued loses its entry and is never released
  (`RpcDuplex.OverwrittenCallIsLost`, with a run that gets there in `RpcDuplex.CollisionIsReached`).
- Address ranges with 128 or more host bits do not contain all of their own range (`IpRange.RangeHoldsIff`).
- The wrapped comparison of IPv6 addresses gives the right sign exactly for addresses whose deciding words are
  less than 2^63 apart, and the opposite sign for all others (`IpRange.CompareAgreesIff`, `IpMap.CompareIs`).
  The lookup is right exactly when the comparisons can be trusted at the ranges it meets
  (`IpMap.LookupIsRightIff`).  That is not rare: a network's range is judged right for every address exactly
  when it is smaller than a /64 (`IpMap.CidrIsJudgedIff`), and in a /64 only two of its 2^64 addresses are found
  (`IpMap.Slash64FindsTwo`).  There are wrong hits too (`IpMap.WrongAnswers`).  A whole list of networks is
  answered right for every address exactly when each is smaller than a /64 and is found at its first and its last
  address (`IpMap.NetworksAreRightIff`).
- A digest whose last byte was cut off decodes without an error and loses its rewrite
  (`Digest.LostTerminator`).
- With one limit for all, every tick of the rate limiter admits the smaller of its calls and the limit, now and
  under further calls at the newest tick, exactly when every call that came after one of a later tick of its
  window found both ticks full (`RateWindow.WindowIsKeptIff`).  Otherwise the late call is refused although its
  own tick has room, is admitted although its own tick is full, or makes the newer tick begin to count anew
  (`RateWindow.StragglerOveradmitsIff`).  Although calls enter by the clock, some run takes a tick over its limit
  for every limit but 0 and 1 (`RateWindow.OveradmitsIff`).
- A failed paranoid allocation leaves its candidates taken for good; all later allocations fail too exactly in
  a net of at most 64 addresses (`Subnet.FailuresLastIff`).
- The two forms of the backoff differ for a negative base delay from the third delay on
  (`Backoff.StepN`); policies with their defaults filled in never have one.
- A task writes its result again for every delivery that was cut off after its write or told the queue in vain
  (`TaskDelivery.WritesAreAccountedFor`, `TaskDelivery.WrittenTwice`).  A task whose error forbids a retry is
  still executed again, without a delay and without end, while the bucket for dead letters refuses writes
  (`TaskDelivery.FailuresAreBoundedIff`).
- Round robin is unfair across the wrap of its 32-bit counter exactly when the number of healthy upstreams
  does not divide 2^32 (`LoadBalancer.AlwaysFairIff`); a retry chooses the last upstream twice as often
  (`LoadBalancer.RetryIsBiased`).
- The machine number of an identifier is read as bits 12 to 21 of the generator's number, and composing an
  identifier from its own fields gives it back only if those bits are zero (`Snowflake.RebuiltIff`).

## Model

| member | source | states |
|---|---|---|
| `Scheduler.PublishedRunsAreSpaced` | session/runner.go:69-122 | in every interleaving of all nodes, two published runs have claim times more than the interval apart (up to the stored millisecond); a claim is published once, by the node that made it |
| `Scheduler.RollbackIsSafe` | session/runner.go:107-114 | every rollback in every run replaced the rolling-back node's own, never published claim, for any increasing revisions shared with other keys |
| `Scheduler.RollbackTakesEffectIff` | session/runner.go:107-114 | after a failed publish the rollback takes effect iff the claim is still newest and its revision directly follows the loaded one |
| `Scheduler.RollbackNeedsQuietBucket` | session/runner.go:107-114 | in terms of the run: iff the claim is still newest and no event between the write of the loaded revision and the claim wrote to another key of the bucket |
| `Scheduler.RevisionCounts` | session/runner.go:88-93 | a revision counts all earlier writes to the bucket, those to the key and those to other keys |
| `Scheduler.LostRollback` | session/runner.go:107-114 | a concrete run in which one write to another key makes the rollback fail: nothing published, next run blocked |
| `Scheduler.NextRevisionIsOwnClaim` | session/runner.go:108-113 | the revision after the loaded one can only be the node's own claim |
| `Scheduler.RollbackMakesDueAgain` | session/runner.go:93-114 | over every run: a rollback that takes effect leaves the key due at the clock reading of the claim, cut to the millisecond, and every idle node whose clock is past that finds the run due |
| `Scheduler.RoundPublishesIff` | session/runner.go:99-115 | from every reachable state a round that nobody disturbs publishes iff the stored time has passed; the next run is then due an interval later, or at once after a failed publish whose rollback goes through, and it does iff no other key was written since the newest revision |
| `Scheduler.FirstClaimWins` | session/runner.go:93-108 | of the nodes that loaded the same revision the first to claim gets it, the others change nothing |
| `Scheduler.FirstRound` | session/runner.go:70-92 | a created key is due at its creation time |
| `Scheduler.RunKeepsInv` | session/runner.go:69-122 | the invariant over log, nodes and publications holds in every reachable state |
| `Scheduler.StepKeepsInv` | session/runner.go:69-122 | each atomic operation keeps it |
| `Scheduler.ClaimKeepsSpacing` | session/runner.go:106-108 | a claim after the due time keeps standing claims spaced |
| `Scheduler.RollbackKeepsSpacing` | session/runner.go:109-113 | undoing the last claim cannot reopen an earlier standing interval |
| `LruCache.CounterAndEvictions` | lru/cache.go:45-108 | in every run the counter differs from the map size by exactly the pending increments and decrements; nothing is evicted twice or while resident |
| `LruCache.QuiescentConservation` | lru/cache.go:45-149 | with nothing in flight the counter is the map size and entries stored are exactly those resident plus those evicted |
| `LruCache.RunConserves` | lru/cache.go:45-149 | the conservation invariant in every reachable state |
| `LruCache.CountedItemsAreAttended` | lru/cache.go:65-88 | whenever the counter is positive a cleaner is being installed or the installed ticker runs and its goroutine has not decided to exit |
| `LruCache.QuiescentCacheIsSwept` | lru/cache.go:65-88 | with nothing in flight a non-empty cache has a looping cleaner, and no stray ticker runs on |
| `LruCache.RunKeepsCleaner` | lru/cache.go:65-88 | the cleaner invariant in every reachable state |
| `LruCache.CleanerMovesOnIff` | lru/cache.go:71-88 | a waiting cleaner ever moves on iff its ticker still runs or has left a tick in its channel |
| `LruCache.LeakedCleaner` | lru/cache.go:71-88 | a run after which a cleaner waits for ever, in every continuation |
| `LruCache.CacheComesToRest` | lru/cache.go:45-88 | from every reachable state, without a new operation, everything in flight can be completed, the cleaner sweeps everything out and stops itself and its ticker, and every entry ever stored has been handed to Evict once; only leaked goroutines stay |
| `LruCache.CleanerEnds` | lru/cache.go:78-86 | a cleaner that can still get a tick ends once the counter is 0, with its ticker stopped and uninstalled |
| `LruCache.CleanerLeavesIff` | lru/cache.go:81-84 | a goroutine that has swept leaves its loop iff the counter is 0 |
| `LruCache.InsertIs` | lru/cache.go:65-75 | a lone insert stores and counts its entry, and goes on to start a cleaner iff the counter was 0 |
| `LruCache.ReplaceIs` | lru/cache.go:91-108 | a lone replace hands the old entry to Evict, a lone set keeps it |
| `LruCache.DeleteIs` | lru/cache.go:38-64 | a lone delete takes the key out, counts it and hands its entry to Evict |
| `LruCache.NoIntervalNoCleaner` | lru/cache.go:65-67 | without a cleanup interval no cleaner is ever started |
| `RpcDuplex.ResolvedOnce` | pmtp/jrpc_code.go:77-115 | each call is resolved at most once, by the reply with its own number or by closing, never both, for ever |
| `RpcDuplex.EveryoneIsReleased` | pmtp/jrpc_code.go:35-65 | nothing is pending after shutdown; once input has ended every promised call is replied to or closed, except at most one whose reply could not be read |
| `RpcDuplex.AbandonedCallsAreClosed` | pmtp/jrpc_code.go:138-166 | a caller whose write failed finds its channel closed, so the input loop never signals it |
| `RpcDuplex.OverwrittenCallIsLost` | pmtp/jrpc_code.go:98-116 | outside the window the overwritten call stays pending in every continuation |
| `RpcDuplex.CollisionIsReached` | pmtp/jrpc_code.go:98-116 | a run that leaves the window: the first call is taken over and never resolved |
| `RpcDuplex.PromiseIsSafeIff` | pmtp/jrpc_code.go:98-116 | a promise keeps the connection sound iff no waiting call has the same masked number |
| `RpcDuplex.ReplyReachesItsCall` | pmtp/jrpc_code.go:77-97 | in every run a reply that is read reaches the waiting call whose number it carries and no other; what names no waiting call changes nothing |
| `RpcDuplex.CallIsAnswered` | pmtp/jrpc_code.go:138-209 | a call that draws, promises and is answered gets its reply, and all else is as before |
| `RpcDuplex.OwnReplyIs` | pmtp/jrpc_packet.go:15-20 | the header that answers a call: the flag and the call's number in 31 bits |
| `RpcDuplex.ShutdownReleases` | pmtp/jrpc_code.go:35-65 | each of the four ways to shut down closes exactly the pending channels, and later promises are refused |
| `RpcDuplex.InputEnds` | pmtp/jrpc_code.go:186-209 | the input loop comes to its end from wherever reading fails, stranding at most the call in its hand |
| `RpcDuplex.WindowSeparates` | pmtp/jrpc_packet.go:15-20 | fewer than 2^31 calls apart, two calls have different masked numbers, across the 32-bit wrap |
| `RpcDuplex.RunKeepsInv` | pmtp/jrpc_code.go:35-209 | pending map and pending calls coincide, in every reachable state within the window |
| `RpcDuplex.StepKeepsInv` | pmtp/jrpc_code.go:35-209 | each atomic section keeps that |
| `RpcDuplex.Duplex.Shutdown` | pmtp/jrpc_code.go:35-65 | the loop closes exactly the pending channels, each of which is open, in any order |
| `RpcDuplex.Duplex.Pop` | pmtp/jrpc_code.go:77-97 | finds a call iff the connection is open and a waiting call has the reply's number, and takes out that call, nothing else |
| `RpcDuplex.Duplex.PromiseCall` | pmtp/jrpc_code.go:98-115 | registers the call under its number, refuses after shutdown; the connection stays sound iff no waiting call has that number, which the window guarantees |
| `RpcDuplex.Duplex.NextSeq` | pmtp/jrpc_code.go:138-146 | draws the next number |
| `KvCas.CompareAndSwap` | session/api_kv.go:49-102 | under arbitrary interference: success means one instant at which the value matched and was replaced; a mismatch was really current during the call; any other outcome means no swap; at most 17 updates |
| `KvCas.Try` | session/api_kv.go:71-91 | one round: won on the revision, or the key moved on and its newer state is known |
| `KvCas.GetKeyState` | session/api_kv.go:32-46 | returns a state that was current during the call; an absent key gets the value `null`, and undisturbed that is what is returned |
| `KvCas.WonIsSwap` | session/api_kv.go:71-99 | a successful revision update is a swap of the value that was read |
| `Autoscaler.RunBound` | service/svc_app.go:668-773 | over every run of ticks the non-terminating instances never exceed the larger of the maximum and the minimum plus one |
| `Autoscaler.MaximumIsKeptIff` | service/svc_app.go:699-756 | the configured maximum itself holds on every run iff not autoscaling, or slow start, or minimum below maximum |
| `Autoscaler.TickBound` | service/svc_app.go:668-773 | one tick never pushes the active instances above that bound |
| `Autoscaler.TickKeepsMinimum` | service/svc_app.go:668-773 | in a tick the active instances do not fall below what they were or the minimum, except by as many as die or are asked to terminate from outside or for their memory during the tick |
| `Autoscaler.RunKeepsIds` | service/svc_app.go:513-657 | in every run each process has a number of its own, which the previous row asks for |
| `Autoscaler.TickRestarts` | service/svc_app.go:675-684 | a tick that finds nobody left starts one instance, and waits while all that are left are terminating |
| `Autoscaler.TickFillsUp` | service/svc_app.go:699-708 | while somebody runs and no start fails a tick fills the list up to the minimum, one instance a tick with a slow start |
| `Autoscaler.TickReachesMinimum` | service/svc_app.go:668-773 | an undisturbed tick whose starts succeed leaves at least the minimum active |
| `Autoscaler.OverMemoryEnds` | service/svc_app.go:686-697 | whoever is over the memory limit is terminating after the tick, unless it died before |
| `Autoscaler.ScalesByMajority` | service/svc_app.go:741-771 | when a tick starts one or terminates one, by majorities of the running instances over and under the thresholds |
| `Autoscaler.ReadingIs` | service/svc_app.go:719-738 | how a usage counts, in terms of the thresholds |
| `Autoscaler.ScalesDownIff` | service/svc_app.go:758-770 | some run scales an instance down iff the configuration is automatic, can get above its minimum and has a lower threshold that is not negative |
| `Autoscaler.GrowsIff` | service/svc_app.go:741-756 | some run has more than the minimum active iff the configuration is automatic and leaves room above it or can overshoot |
| `Autoscaler.DownscaleHitsIdle` | service/svc_app.go:758-770 | in every tick of every run the loop scales down one instance at most, under the threshold in each of its last AutoScaleStreak readings, for a streak below 2^31 |
| `Autoscaler.StreakIsHonouredIff` | service/svc_app.go:726-769 | over all runs every scaled-down instance had the whole streak iff the streak fits 32 bits or the configuration never scales down |
| `Autoscaler.RunCounters` | service/svc_app.go:726-738 | over every run each process counter is the (wrapped) length of its current streak under the threshold |
| `Autoscaler.OvershootTick` | service/svc_app.go:699-756 | a tick that replaces a dead instance and scales up from the old list goes one above the maximum |
| `Autoscaler.Prepare` | service/svc_app.go:117-168 | every accepted configuration has 1 <= minimum <= maximum and usable thresholds, and keeps sane values as configured |
| `Autoscaler.ResolveSpec` | service/svc_app.go:119-134 | a percentage is truncated, and nothing resolves below one |
| `Autoscaler.AppServer.OnTick` | service/svc_app.go:668-773 | the imperative tick body performs the specified tick |
| `Autoscaler.AppServer.Scale` | service/svc_app.go:710-771 | counting and scaling, against the specification |
| `Autoscaler.AppServer.ReadUsage` | service/svc_app.go:712-739 | the counting loop judges each usage by the thresholds, computes the three tallies and updates each counter |
| `Autoscaler.AppServer.FillUp` | service/svc_app.go:699-708 | the filling loop, with failures and slow start |
| `Autoscaler.AppServer.TerminateOne` | service/svc_app.go:758-770 | the first candidate, and no other, is terminated |
| `Autoscaler.AppServer.TerminateOverMemory` | service/svc_app.go:686-697 | exactly the listed instances over the limit are asked to terminate |
| `Autoscaler.AppServer.GetProcesses` | service/svc_app.go:658-666 | forgets the dead instances |
| `Autoscaler.AppServer.SpawnProcess` | service/svc_app.go:513-657 | one more instance on success, nothing on failure |
| `Deadline.NeverPostponed` | service/svc_app.go:362-393 | in every run from the start a deadline once set stays set and never moves away, and the signal is requested at most once, exactly when the flag says so |
| `Deadline.LateCallsKill` | service/svc_app.go:426-464 | in every run every call that begins after a deadline was set, with a clock past it, times out, and the process is dead, whatever the others do |
| `Deadline.TerminationIsBounded` | service/svc_app.go:362-393 | in every run, after a successful set at some time, later calls time out once the clock is a stop timeout and a millisecond past it, and the process is dead |
| `Deadline.TimeoutKills` | service/svc_app.go:445-448 | in every run the process is dead once a caller was told that time is up, and stays dead |
| `Deadline.LoneCallTerminates` | service/svc_app.go:426-464 | from every reachable state with a living process, an undisturbed call leaves the deadline and gets the verdict of a lone caller; timed out, the process is dead, and else the signal was requested exactly once |
| `Deadline.LoneWatchKillsIff` | service/svc_app.go:436-448 | without a deadline of its own a call kills a terminating process iff its deadline has passed |
| `Deadline.EarlierDeadlineWins` | service/svc_app.go:362-393 | a bump times out iff the wanted or the set deadline has passed; else the earlier of both stays, within the stop timeout |
| `Deadline.StepBumps` | service/svc_app.go:378-392 | every step that decides a call has the effect and the verdict the caller alone would have had on the word at that step; no other step changes the word |
| `Deadline.StepKeepsInv` | service/svc_app.go:362-464 | each atomic access keeps the invariant and never postpones |
| `Deadline.BumpNeverPostpones` | service/svc_app.go:362-393 | a bump leaves a non-zero deadline, no later than before, and if changed at most the stop timeout ahead |
| `Deadline.Process.BumpDeadline` | service/svc_app.go:362-393 | the retry loop takes effect on the word at one instant of the call |
| `RateWindow.InterleavingIsLinear` | rate/window.go:46-71 | every interleaving of compare-and-swap loops gives the words and verdicts of some sequence of whole calls |
| `RateWindow.OtherWindowIsEmpty` | rate/window.go:81-89 | a reachable window never shows the tick of the other parity, so nothing is carried |
| `RateWindow.SubTick` | rate/window.go:21-33 | a subtick counts for the tick it lies in, in 32 bits |
| `RateWindow.RunKeepsInv` | rate/window.go:46-89 | zero or a tick of its own parity, in every reachable state |
| `RateWindow.AdmittedIff` | rate/window.go:54-71 | as long as late calls find both ticks full, a call is admitted iff fewer calls of its tick than its limit were |
| `RateWindow.OrderedIsHarmless` | rate/window.go:54-71 | with non-decreasing ticks no call is late |
| `RateWindow.FixedWindow` | rate/window.go:54-71 | one limit, harmless late calls: a tick admits exactly the smaller of its calls and the limit |
| `RateWindow.ConcurrentFixedWindow` | rate/window.go:81-89 | the concurrent limiter refines that counter in every run whose late calls are harmless |
| `RateWindow.WindowIsKeptIff` | rate/window.go:54-71 | one limit: every tick keeps its window, now and under further calls at the newest tick, iff every late call found its own tick and the window's full |
| `RateWindow.StragglerIsHarmlessIff` | rate/window.go:54-71 | the same for one late call after an ordered sequence |
| `RateWindow.StragglerOveradmitsIff` | rate/window.go:54-71 | such a call goes over its own limit iff its tick is full and the newer one is not, and lets the newer tick go over iff that is not full |
| `RateWindow.EveryLogIsReached` | rate/window.go:54-89 | the logs of runs, also of those whose calls enter by the clock, are exactly the sequences of whole calls with their verdicts |
| `RateWindow.OveradmitsIff` | rate/window.go:54-89 | some run whose calls enter by the clock takes a tick over its one limit iff the limit is two or more |
| `RateWindow.Window.Inc` | rate/window.go:54-71 | the retry loop takes effect on the word at one instant of the call |
| `Subnet.CandidateIs` | subnet/allocator.go:60-75 | a generated address is the network address plus the counter modulo the size of the net |
| `Subnet.CandidatesDiffer` | subnet/allocator.go:60-75 | candidates closer than the size of the net differ, across the wrap of the counter |
| `Subnet.KeyIsInjective` | subnet/allocator.go:42-48 | different addresses have different keys |
| `Subnet.Allocator.Allocate` | subnet/allocator.go:76-118 | the 64-iteration search, against the search over the candidates' keys, with the taken and bound sets it leaves |
| `Subnet.SearchFinds` | subnet/allocator.go:78-115 | it stops at the first free candidate that passes the check, and takes exactly the candidates looked at |
| `Subnet.AllocationSucceedsIff` | subnet/allocator.go:76-118 | with passing checks it succeeds iff some candidate is free, which is certain with 6 host bits and fewer than 64 taken |
| `Subnet.SomeCandidateIsFree` | subnet/allocator.go:76-118 | the pigeonhole argument for that |
| `Subnet.FailedCallExhaustsSmallNet` | subnet/allocator.go:98-113 | after a failed call in a net of at most 64 addresses no call succeeds until something is deallocated |
| `Subnet.LargeNetRecovers` | subnet/allocator.go:76-118 | in a larger net the first call of a fresh allocator can fail and the next one succeed |
| `Subnet.FailuresLastIff` | subnet/allocator.go:76-118 | all calls after a failed one fail iff the net has at most 64 addresses |
| `Subnet.LiveAllocationsDiffer` | subnet/allocator.go:50-127 | over every interleaving no two allocations in use share an address; taken means in use or leaked |
| `Subnet.StepKeepsInv` | subnet/allocator.go:84-94 | each critical section keeps that |
| `Subnet.AllocatesIff` | subnet/allocator.go:50-113 | a caller gets a key iff nobody holds it and it did not leak; releasing frees it, failing to listen leaks it |
| `Subnet.Allocator.Draw` | subnet/allocator.go:60-94 | one candidate is generated, looked up and marked |
| `Subnet.Allocator.Generate` | subnet/allocator.go:60-75 | the counter advances and wraps, the address is the candidate for it |
| `Subnet.Allocator.Deallocate` | subnet/allocator.go:50-54 | exactly that address is free again |
| `LoadBalancer.RoundRobinIsFair` | lb/lb.go:151-203 | n successive picks choose each of m healthy upstreams n / m times, at most once more, exactly if m divides n |
| `LoadBalancer.CountIsQuotient` | lb/lb.go:151-203 | the exact number of times one upstream is chosen |
| `LoadBalancer.ChoiceIsHealthyIff` | lb/lb.go:132-205 | a choice names a healthy upstream iff there is one |
| `LoadBalancer.RetryFallsBack` | lb/lb.go:110-131 | with no other healthy upstream a retry gets the bad one if it counts as healthy, else none |
| `LoadBalancer.AlwaysFairIff` | lb/lb.go:151-203 | whole rounds are shared out evenly from every counter value iff the number of healthy upstreams divides 2^32 |
| `LoadBalancer.RetryAvoidsBadIff` | lb/lb.go:110-131 | a retry gets a healthy upstream other than the bad one iff there is one |
| `LoadBalancer.RetryIsBiased` | lb/lb.go:110-131 | which residues of the random number choose which upstream on a retry |
| `LoadBalancer.LeastLoadMissesIff` | lb/lb.go:166-184 | least-load returns an unhealthy upstream although one is healthy iff the first is unhealthy and all healthy ones carry the largest 32-bit load |
| `LoadBalancer.Balancer.PickLeast` | lb/lb.go:166-184 | the first healthy upstream of least load, whenever there is a candidate |
| `LoadBalancer.Balancer.GetHealthyIdx` | lb/lb.go:110-131 | the n-th good upstream, the last if there are fewer, the bad one if there is none |
| `LoadBalancer.Balancer.CountHealthy` | lb/lb.go:186-196 | number and first of the healthy upstreams |
| `LoadBalancer.Balancer.Entropy` | lb/lb.go:140-154 | which strategy draws from which source, and when the counter moves |
| `LoadBalancer.Balancer.NextUpstream` | lb/lb.go:132-205 | none, one or several upstreams, each strategy, with and without a bad upstream |
| `Backoff.StepN` | retry/policy.go:45-60 | the direct form reports what the (n+1)-th step reports, and gives its delay iff the base is not negative or n <= 1 |
| `Backoff.StepsGiveDelay` | retry/policy.go:61-78 | n+1 steps of a fresh retrier give the n-th delay of the series |
| `Backoff.FirstDelays` | retry/policy.go:45-78 | the first six delays in terms of the base |
| `Backoff.DefaultsAre` | retry/policy.go:31-38 | the defaults as numbers, and what negative values mean |
| `Backoff.DelaysGrow` | retry/policy.go:41-78 | delays never fall and stay between the base and twenty times the base |
| `Backoff.MaximumIff` | retry/policy.go:41-78 | twenty times the base is reached iff n >= 5 |
| `Backoff.Retrier.constructor` | retry/retrier.go:17-29 | defaults, and the earlier of own and context deadline |
| `Backoff.Retrier.NextDelay` | retry/retrier.go:35-42 | one step of the policy on the retrier's fields |
| `Backoff.Retrier.ConsumeAny` | retry/retrier.go:44-71 | when the retrier sleeps, how long, and otherwise why not |
| `Backoff.Retrier.Run` | retry/retrier.go:84-97 | at most attempts + 1 calls; every sleep follows a retryable error, has the length of its step, and ends before the deadline; the exact reason the run ended |
| `Backoff.DelaysFitTimeout` | retry/retrier.go:44-97 | with a clock that never runs backwards all delays slept through fit into the timeout, each in full |
| `Backoff.UnlimitedAttemptsEnd` | retry/retrier.go:44-97 | with unlimited attempts all but five sleeps cost twenty times the base out of the timeout |
| `TaskDelivery.Runner.ServeJetstream` | session/runner.go:247-296 | the remote operations of a delivery in their order, cut off where the node dies: the write that is due, then what the queue is told |
| `TaskDelivery.DeliveryPerformsOperations` | session/runner.go:247-296 | an undisturbed delivery of the state machine performs the operations of the runner |
| `TaskDelivery.UndisturbedDelivery` | session/runner.go:247-296 | what a delivery achieves for each result of the task: acknowledged, delivered again after its delay, or terminated, with the record that is due, and unsettled if that cannot be written |
| `TaskDelivery.DeliveredIff` | session/runner.go:247-296 | a message can be delivered again iff it is not settled |
| `TaskDelivery.SettledIsWritten` | session/runner.go:250-294 | in every run of overlapping deliveries a settlement the queue has learned of is the one planned for the result of that delivery's task, and if a record is due for that result, that delivery has written it |
| `TaskDelivery.WritesAreAccountedFor` | session/runner.go:262-294 | records written are at most one more than deliveries cut off after their write or heard in vain, and exactly one more iff the settlement that was taken followed a write |
| `TaskDelivery.WrittenTwice` | session/runner.go:281-294 | a node that dies between write and acknowledgement: two records, one settled message |
| `TaskDelivery.RetriesSlowDown` | session/runner.go:254-260 | the delays of successive retries never fall and stay between the base delay and twenty times it |
| `TaskDelivery.RetryDelays` | session/runner.go:254-260 | over every run the first three delays are one, three and six times the base, and twenty times from the sixth on, not before |
| `TaskDelivery.ExecutionsAreAccountedFor` | session/runner.go:254-279 | a task runs at most attempts + 1 times plus the later deliveries that were disturbed or could not write, and exactly so often iff a later delivery settled it |
| `TaskDelivery.DecisionsAreAccountedFor` | session/runner.go:254-279 | the same for decisions, plus settlements told in vain and refused writes, with its iff |
| `TaskDelivery.FailuresAreBoundedIff` | session/runner.go:254-279 | apart from disturbed deliveries the executions of a failing task are bounded over all runs iff attempts are limited and no dead letters are kept |
| `IpRange.ShrDivides` | netx/ip.go:101-112 | a right shift by n < 128 divides the 128-bit number by 2^n |
| `IpRange.LimitValue` | netx/ip.go:286-288 | the limit is the address with its host bits set |
| `IpRange.ContainsIsRange` | netx/ip.go:289-291 | containment is numeric betweenness of cleared address and limit |
| `IpRange.RangeHoldsIff` | netx/ip.go:286-291 | that holds for all addresses iff the shift is below 128 |
| `IpRange.CompareAgreesIff` | netx/ip.go:165-171 | the sign of the wrapped difference is numeric order iff the deciding words are less than 2^63 apart |
| `IpRange.IsV4Iff` | netx/ip.go:131-133 | an address counts as IPv4 iff it is 0 or a mapped address |
| `IpMap.SortedLookup` | netx/ipmap.go:20-73 | sorting disjoint ranges makes them searchable and changes no answer |
| `IpMap.ScanIgnoresOrder` | netx/ipmap.go:41-73 | disjoint ranges answer alike in any order |
| `IpMap.InsertAllSorts` | netx/ipmap.go:20-28 | the sorting specification sorts and permutes |
| `IpMap.AnySortAgrees` | netx/ipmap.go:20-28 | any sorted arrangement of disjoint ranges is the specified one |
| `IpMap.SortComparesAsOrderIff` | netx/ipmap.go:24-27 | the sort compares by numeric order iff all first addresses are near each other |
| `IpMap.CompareIs` | netx/ip.go:165-171 | the sign of the comparison: right for near addresses, opposite for all others |
| `IpMap.TurnIff` | netx/ipmap.go:60-69 | when one step of the search goes the right way, and when it neither misses nor wrongly hits a range |
| `IpMap.LookupIsRightIff` | netx/ipmap.go:56-72 | on disjoint sorted ranges the lookup answers what a scan answers iff the comparisons can be trusted at the ranges it meets |
| `IpMap.AlwaysJudgedIff` | netx/ipmap.go:56-72 | which single ranges are judged right for every address |
| `IpMap.CidrIsJudgedIff` | netx/ipmap.go:56-72 | a network's range is judged right for every address iff it is smaller than a /64 |
| `IpMap.Slash64FindsTwo` | netx/ipmap.go:56-72 | of the addresses of a /64 the middle and the last are found, no other |
| `IpMap.AlwaysRightIff` | netx/ipmap.go:56-72 | a list of ranges within one high word each is answered right for all addresses iff the first and last address of each range are found |
| `IpMap.NetworksAreRightIff` | netx/ipmap.go:56-72 | a list of networks is answered right for all addresses iff each is smaller than a /64 and found at its first and last address |
| `IpMap.WrongAnswers` | netx/ipmap.go:56-72 | an ordinary /64 and a far address that are missed, and an uncovered address that is found |
| `IpMap.IPMap.Add` | netx/ipmap.go:29-40 | the first address decides the list |
| `IpMap.IPMap.Sort` | netx/ipmap.go:20-28 | both lists sorted and permuted, IPv6 where the comparison is an order |
| `IpMap.IPMap.FindV4` | netx/ipmap.go:41-55 | binary search answers what a scan answers |
| `IpMap.IPMap.FindV6` | netx/ipmap.go:56-72 | the binary search, which answers what a scan answers iff the comparisons can be trusted along its way (given information of its own for each range) |
| `IpMap.IPMap.Find` | netx/ipmap.go:41-73 | lookup by kind of address, each with its condition |
| `Digest.RoundTripIff` | urlsigner/digest.go:114-137 | for every order of the maps, decoding gives the digest back iff it has whole non-negative milliseconds, non-empty keys and no NUL |
| `Digest.RoundTrip` | urlsigner/digest.go:114-137 | the direction a sender relies on |
| `Digest.DecodedIsRepresentable` | urlsigner/digest.go:122-137 | whatever decodes is something the format can carry |
| `Digest.DecodesIff` | urlsigner/digest.go:122-137 | arbitrary bytes fail only in the varint, with the exact condition |
| `Digest.LostTerminator` | urlsigner/digest.go:55-65 | a digest cut by one byte decodes with an empty rewrite |
| `Digest.VarintRoundTrip` | urlsigner/digest.go:94-113 | every signed 64-bit number survives the zigzag varint |
| `Digest.LayoutExample` | urlsigner/digest.go:114-121 | the bytes of two example digests |
| `Digest.GroupsReadableIff` | urlsigner/digest.go:103-113 | which byte strings begin with a readable varint |
| `Digest.MapRoundTrip` | urlsigner/digest.go:66-93 | a map written in any order is read back |
| `Digest.MarshalBinary` | urlsigner/digest.go:114-121 | the writers in sequence produce the specified bytes |
| `Digest.UnmarshalBinary` | urlsigner/digest.go:122-137 | the readers in sequence give the specified result |
| `Digest.Buffer.TakeString` | urlsigner/digest.go:55-65 | reads up to the NUL |
| `Digest.Buffer.TakeMap` | urlsigner/digest.go:76-93 | the map loop, which always terminates |
| `Digest.Buffer.TakeTime` | urlsigner/digest.go:103-113 | absent for a negative number, else milliseconds |
| `Digest.Buffer.PutMap` | urlsigner/digest.go:66-75 | the writing loop, without entries that have no key |
| `Digest.Buffer.PutTime` | urlsigner/digest.go:94-102 | the expiry or the mark for none |
| `JrpcStream.StreamRoundTripIff` | pmtp/jrpc_stream.go:44-82 | any list of frames is read back, bodies normalised, iff no identifier has a NUL and no body a newline inside |
| `JrpcStream.FrameRoundTrip` | pmtp/jrpc_stream.go:44-82 | one frame, whatever follows it |
| `JrpcStream.KeptIsFramable` | pmtp/jrpc_stream.go:44-82 | only such a frame is read back as written |
| `JrpcStream.HeaderRoundTrip` | pmtp/jrpc_stream.go:66-69 | the 32-bit little-endian header |
| `JrpcStream.LayoutExample` | pmtp/jrpc_stream.go:44-65 | the bytes of three example frames |
| `JrpcStream.Stream.Write` | pmtp/jrpc_stream.go:44-65 | appends exactly the encoded frame |
| `JrpcStream.Stream.ReadFrame` | pmtp/jrpc_stream.go:66-82 | consumes exactly the first frame |
| `Snowflake.ComposeIs` | snowflake/id.go:62-68 | an identifier is its three fields side by side |
| `Snowflake.FieldsAreRecovered` | snowflake/id.go:100-108 | sequence and machine bits are read back, the millisecond iff it lies in the 42-bit range |
| `Snowflake.RebuiltIff` | snowflake/id.go:62-108 | composing an identifier from its own fields gives it back iff its machine bits are zero |
| `Snowflake.LaterIsLarger` | snowflake/id.go:62-68 | a later millisecond gives a larger identifier, whatever the generators |
| `Snowflake.BoundsEncloseMillisecond` | snowflake/id.go:94-99 | the bounds enclose exactly the identifiers of the same millisecond |
| `Snowflake.DrawsCollideIff` | snowflake/id.go:33-35 | two draws collide iff their times agree in 42 bits and a multiple of 4096 draws lies between |
| `Snowflake.DrawsAreDistinct` | snowflake/id.go:33-35 | distinct while the calls of one millisecond fall within 4096 successive draws |
| `Snowflake.Generator.NextAtUnixMilli` | snowflake/id.go:33-35 | one draw, with the 32-bit wrap of the counter |
| `Snowflake.NamesSortLikeIds` | service/build_files.go:22-29 | build names compare as strings exactly as identifiers compare as numbers |
| `Snowflake.NameReadsBack` | service/build_files.go:22-29 | a build name has twenty digits, those of the identifier |
| `Snowflake.LaterBuildSortsLater` | service/build_files.go:22-29 | a build of a later millisecond has a later name |

## Left out

- Sockets, TLS, HTTP, NATS, yamux, processes, signals, files: each call is an event or an argument with
  success or failure as its outcome.  In the scheduler `delivered = false` is a request without effect, and a
  lost reply is a delivered request followed by a crash.  In the task delivery a write can take effect without
  being reported.
- Racing code (`Scheduler`, `LruCache`, the concurrent parts of `Deadline`, `RateWindow`, `Subnet`,
  `RpcDuplex`) is a state machine over sequentially consistent atomic steps, not a class with goroutines.
- Jitter and sleeping of the scheduler: a node may load at any time, so nothing is said about how soon one does.
- Which cache entries are expired or acquired: a sweep may take any entry, so nothing is said about
  entries in use.
- `session/runner.go` beyond `Run` and `ServeJetstream`: running a task, progress reports, consuming and
  listening, and when the queue delivers again.  Marshalling an error text is taken to succeed.
- The error text of an RPC reply, and the waiting caller whose reply could not be read.
- JSON: the key-value endpoint's values and their equality are abstract; packet bodies are bytes.
- IpMap.IPMap.Sort: the library sort is modelled by insertion.  For disjoint ranges any sort by numeric order gives
  the same (`IpMap.AnySortAgrees`); where the comparison is no order, the result depends on the library.
- Autoscaler.Prepare: the check of the name, the deferral of young instances and the other timeouts, which only get
  defaults.  CPU usage and thresholds are real numbers, and usage is not negative.
- Autoscaler.AppServer.SpawnProcess: allocating an address, starting, waiting until ready and attaching monitors
  are one outcome.
- `Reset` of the rate window, and bounds that would use the carry of the previous window.
- `drain`, which waits for requests to finish before the signal: it only delays the one request.
- Sticky sessions of the load balancer, its reverse proxy and its health checks; health and load are a
  snapshot during one selection.
- Overflow of 64-bit durations.  The deadline model asks for clock readings at least a millisecond past 1970.
- Deadline.NeverPostponed: assumes a stop timeout that is not negative, as preparation guarantees.
- Backoff.Retrier.Run: starts from a fresh retrier, as the policy makes it.
- Alias binding of loopback addresses on macOS beyond the set of addresses bound so far.
- Parsing and printing of addresses, durations and identifiers, geolocation, CPU history, signing and key
  derivation.
