# KubeElasti in Dafny

KubeElasti scales Kubernetes workloads to zero and back. Its operator decides when to scale and
reconciles ElastiServices; its resolver holds requests while a workload starts. This project models
the parts of both that are concurrent, timed or retried, and proves what they keep. Verify it with
`dafny verify dfyconfig.toml`.

Concurrent code is a machine: a goroutine is a program counter with its locals, one step is one load,
compare-and-swap, map, mutex or channel operation, and a theorem about `Exec` or `Run` holds for every
number of goroutines and every interleaving. Code that runs under a lock or alone is imperative, as
classes and loops proved against functions of the old state. Answers of the cluster are inputs.

| file | models |
|---|---|
| Word, Counting, Options | the packed 64-bit word; sums over goroutines; optional values |
| Admission, AdmissionSafety, AdmissionTheorems, AdmissionCalls | the semaphore and the breaker under every interleaving |
| BreakerTheorems, SlotLeak | the in-flight counter, and how many slots its release can lose |
| Starvation, StarvationWitness | when a waiter can sleep beside free capacity, exactly |
| Throttler | `Try`, with the semaphore and the breaker as one goroutine runs them |
| Readiness, TrafficRace, NotifyLock | the resolver's timers, with every read and write a step |
| HostManager, Names | the host cache; derived names |
| HostNames, HostMatch, HostExtract, HostAddress, HostRewrite | reading a service and a namespace out of a host, and rewriting the host |
| ProbeMatch, Strings | probe-response rules |
| Informers, Lifecycle | the informer manager; reconciles and finalizations over any run |
| Scaling, MergePatch, Finalizer | polls, notifications, what they write; finalization with partial failures |
| Cron | the enabled-period search |

## What the code does not promise

Each of these is a stronger claim one might expect. The model follows the code, and the named lemma
gives the exact condition or the run that breaks the claim.

- The comment in `release` says dropped wake-ups are always enough. They are, exactly if
  InitialCapacity <= MaxConcurrency or QueueDepth <= InitialCapacity (`StarvesIff`). The shipped defaults
  100, 10, 100 are inside by one slot (`DefaultsNeverStarve`).
- `releaseInFlightSlot` ignores a failed compare-and-swap, so slots are lost for good. Two callers can
  lose m of them exactly if m is less than the number of slots: the breaker can wear down to one usable
  slot, and never to none (`LosesIff`, `NeverWornOut`).
- `Scale` compares the status and writes the spec. On a target in motion it can report success with the
  goal missed (`ReachesIff`), also in the finalizer (`UnsettledIff`).
- The cooldown knows only the scale-ups that were recorded when the poll listed the service. A target goes
  to zero within a cooldown of a scale-up exactly if a quiet poll goes through when some scale-up, but none
  recorded by its listing, is that recent (`ForgottenIff`). So a scale-up whose status patch fails can be
  undone at once (`UnrecordedIsForgotten`), and so can a recorded one that comes between the list and the
  act of a poll (`UnlistedIsForgotten`).
- `findLastTriggerTime` is exact for a schedule and every duration if and only if `Next` gives up only
  where no trigger follows (`ScheduleExactIff`), so for every schedule that is never quiet for the horizon
  `Next` searches (`FrequentIsExact`). That horizon is between five and six years in the cron library. The
  expression "0 0 29 2 *" is quiet for eight years around 2100, and a window as long as the horizon is then
  missed (`LeapDayMissed`). For a given duration the answer is right for all schedules, or all recurring
  ones, if and only if duration + 24h fits the horizon (`ExactIff`).
- Hosts of two labels and hosts that come with `http://` or `https://` are not rewritten (`RewrittenIff`).
- Each pattern is searched over the whole host before the next is tried. An address is read right exactly
  if no pattern before the first one that matches it finds anything else in what follows it
  (`ExtractAddressIff`). A second address in the path is read instead of the first exactly if it has a port
  (`SecondAddressWins`).
- A path prefix that ends in "/" does not match the path without it, unlike PathPrefix in HTTPPathMatch of
  the Gateway API (`TrailingSlash`).
- The notification lock is keyed by the service name alone. A call notifies exactly if the name has no
  entry (`NotifiesIff`), so within a window of a notification the calls of every other namespace are
  dropped too (`DroppedInWindow`, with a run in `OtherNamespaceDropped`).

## Model

| member | source | states |
|---|---|---|
| `Word.Pack` | resolver/internal/throttler/semaphore.go:117-119 | shifting and or-ing is (high mod 2^32) * 2^32 + low for a 32-bit low half |
| `Word.Unpack` | resolver/internal/throttler/semaphore.go:110-112 | shifting and masking give quotient and remainder by 2^32 |
| `Word.UnpackPack` | resolver/internal/throttler/semaphore.go:108-119 | unpacking undoes packing for 32-bit halves |
| `Word.PackUnpack` | resolver/internal/throttler/semaphore.go:108-119 | packing undoes unpacking for every word |
| `AdmissionSafety.StepInv` | resolver/internal/throttler/semaphore.go:23-100 | every step of every goroutine keeps: low half = holders <= largest capacity, both wake-up inequalities, in-flight = live calls + lost releases |
| `AdmissionSafety.Reachable` | resolver/internal/throttler/breaker.go:41-90 | that invariant holds after every schedule of any number of goroutines |
| `AdmissionTheorems.NoLostWakeups` | resolver/internal/throttler/semaphore.go:23-100 | with a buffer no smaller than any capacity, free capacity never exceeds tokens + woken + pending pokes, so nobody sleeps beside free capacity unnoticed |
| `AdmissionTheorems.NoGlobalStall` | resolver/internal/throttler/semaphore.go:15-73 | for any buffer, min(buffer, capacity) <= tokens + woken + pending pokes + holders |
| `AdmissionTheorems.NeverAllParked` | resolver/internal/throttler/semaphore.go:28-36 | if every goroutine is idle or parked and the capacity is positive, a token is waiting |
| `AdmissionTheorems.NeverPanics` | resolver/internal/throttler/semaphore.go:53-55 | the "not paired" panic is unreachable from `Maybe` |
| `AdmissionTheorems.ConcurrencyBound` | resolver/internal/throttler/breaker.go:51-61 | thunks running at once never exceed the largest capacity set |
| `AdmissionTheorems.RefinesCounting` | resolver/internal/throttler/semaphore.go:23-100 | each step of the packed loops is at most one atomic step of a semaphore that knows its owners: take below capacity, give back, or resize |
| `AdmissionCalls.EnteringEnds` | resolver/internal/throttler/breaker.go:65-82 | in every state, a call is refused only if all slots are taken at that moment, and passes the check only by taking one |
| `AdmissionCalls.AcquiringEnds` | resolver/internal/throttler/semaphore.go:23-43 | a call stops acquiring only with one unit more held, of a capacity that had room, or cancelled while it waits; it waits only after seeing no room |
| `AdmissionCalls.ReleasingEnds` | resolver/internal/throttler/semaphore.go:48-73 | a call stops holding only by giving one unit back, and owes a token exactly if there is room after it |
| `AdmissionCalls.ResizingEnds` | resolver/internal/throttler/semaphore.go:76-100 | a resize ends only with its capacity set, and owes one token for each unit added |
| `AdmissionCalls.SendingEnds` | resolver/internal/throttler/semaphore.go:60-69 | a token owed goes into the buffer, to a blocked waiter, or is dropped exactly if the buffer is full |
| `AdmissionCalls.LostTriesAgain` | resolver/internal/throttler/breaker.go:71-82 | a lost compare-and-swap changes nothing and is tried again with the current value, in all four loops |
| `AdmissionCalls.Corners` | resolver/internal/throttler/semaphore.go:53-55 | a release panics exactly if nothing is held |
| `AdmissionCalls.SoloEnters` | resolver/internal/throttler/breaker.go:71-82 | a caller undisturbed from the slot check on, whatever swap it lost before, is admitted if there is a slot |
| `AdmissionCalls.SoloMaybe` | resolver/internal/throttler/breaker.go:41-63 | an undisturbed call with a slot and room runs its thunk holding both |
| `AdmissionCalls.SoloRefused` | resolver/internal/throttler/breaker.go:45-53 | without a slot it is refused and nothing changes; without room it waits |
| `AdmissionCalls.SoloReturns` | resolver/internal/throttler/breaker.go:49-61 | from the thunk on it gives unit and slot back, sends its token, and loses nothing |
| `BreakerTheorems.Conservation` | resolver/internal/throttler/breaker.go:65-90 | in-flight = live calls + releases that lost a race; live <= in-flight <= total slots |
| `BreakerTheorems.LeakIsPermanent` | resolver/internal/throttler/breaker.go:84-90 | a lost slot never comes back: it lowers the number of live calls for the rest of the run |
| `SlotLeak.NeverWornOut` | resolver/internal/throttler/breaker.go:65-90 | on every run fewer slots are lost than there are, so whenever no call is under way the next gets a slot |
| `SlotLeak.LosesIff` | resolver/internal/throttler/breaker.go:84-90 | some run of the resolver, from the constructed breaker, loses m > 0 slots if and only if there are two callers and m is less than the number of slots |
| `SlotLeak.LeaksIff` | resolver/internal/throttler/breaker.go:84-90 | some run loses a slot if and only if there are at least two slots and two callers |
| `Starvation.ConstructorGivesNew` | resolver/internal/throttler/semaphore.go:15-20 | the constructor's own steps leave the capacity set and min(buffer, capacity) tokens |
| `Starvation.NotStarved` | resolver/internal/throttler/semaphore.go:59-69 | under the condition of `StarvesIff`, no run of the resolver leaves a waiter parked beside free capacity with no wake-up under way |
| `StarvationWitness.StarvingRun` | resolver/internal/throttler/semaphore.go:59-69 | outside the condition, a run that does, for every such configuration |
| `StarvationWitness.StarvesIff` | resolver/internal/throttler/breaker.go:28-35 | a waiter can starve if and only if InitialCapacity > MaxConcurrency and QueueDepth > InitialCapacity |
| `StarvationWitness.DefaultsNeverStarve` | resolver/cmd/main.go:44-49 | the shipped defaults never starve a waiter, and one more slot would |
| `Throttler.Semaphore.constructor` | resolver/internal/throttler/semaphore.go:15-20 | initial capacity, the low 32 bits of any size; no holders, as many tokens as fit |
| `Throttler.Semaphore.UpdateCapacity` | resolver/internal/throttler/semaphore.go:76-100 | new capacity, the low 32 bits of any size; same holders, one token per added unit up to the buffer |
| `Throttler.Semaphore.Acquire` | resolver/internal/throttler/semaphore.go:23-43 | succeeds exactly if there is room, and then takes one unit and no token |
| `Throttler.Semaphore.Release` | resolver/internal/throttler/semaphore.go:48-73 | panics exactly if nothing is held; else one unit back and one token if there is room |
| `Throttler.Breaker.Enter` | resolver/internal/throttler/breaker.go:45-53 | full queue, no capacity or admitted, each exactly if slots and capacity say so; a refusal changes no counter |
| `Throttler.Breaker.Leave` | resolver/internal/throttler/breaker.go:49-59 | undoes an admission without a panic |
| `Throttler.LastExists` | resolver/internal/throttler/throttler.go:61-89 | the loop ends within ceil((deadline - start) / retry) + 1 iterations |
| `Throttler.CheckedIs` | resolver/internal/throttler/throttler.go:61-85 | the check of iteration k is over after k + 1 checks and k retry durations |
| `Throttler.Throttler.Try` | resolver/internal/throttler/throttler.go:53-94 | resolve runs at most once, with the try count, in the first try that finds the service active; nil exactly if it ran, succeeded and was over before the deadline; a context error exactly if it did not run or was over too late; all counters restored on every path; every retry begins before the deadline |
| `Readiness.StepInv` | resolver/internal/throttler/throttler.go:96-116 | a cached key always has its delete timer pending in time, or a goroutine about to arm it |
| `Readiness.NeverStale` | resolver/internal/throttler/throttler.go:96-116 | however misses interleave, a hit is at most TrafficReEnableDuration (plus scheduling lag) old |
| `Readiness.DeletePending` | resolver/internal/throttler/throttler.go:110-114 | a present key whose storer is done arming has a delete pending no later than its answer time plus duration and lag |
| `Readiness.SoloMiss` | resolver/internal/throttler/throttler.go:102-115 | an undisturbed miss caches the answer and arms exactly one timer |
| `Readiness.OnlyActiveCached` | resolver/internal/throttler/throttler.go:102-110 | in every run a key is cached only if the cluster answered at that time, to a goroutine that asked for it, that the service is active |
| `Readiness.SoloInactive` | resolver/internal/throttler/throttler.go:96-109 | an undisturbed miss of an inactive service leaves no trace; a hit asks nobody |
| `TrafficRace.NeverBlockedForever` | resolver/internal/hostmanager/hostManager.go:79-130 | in every interleaving a blocked host has an enable pending, about to be armed or about to act, and is blocked at most reEnable + 3 steps |
| `TrafficRace.NeverScheduledForever` | resolver/internal/hostmanager/hostManager.go:98-120 | the scheduled flag never sticks beyond grace + 2 steps |
| `TrafficRace.SoloSchedule` | resolver/internal/hostmanager/hostManager.go:98-120 | an undisturbed request sets the flag and leaves one disable timer |
| `TrafficRace.SoloDisable` | resolver/internal/hostmanager/hostManager.go:79-119 | an undisturbed disable timer blocks the host and leaves one enable timer |
| `TrafficRace.SoloEnable` | resolver/internal/hostmanager/hostManager.go:123-130 | an undisturbed enable timer unblocks the host |
| `TrafficRace.SoloDisableBlocked` | resolver/internal/hostmanager/hostManager.go:79-91 | a disable of a blocked host arms no second enable |
| `TrafficRace.SoloEnableAllowed` | resolver/internal/hostmanager/hostManager.go:123-130 | an enable of a host that takes traffic leaves it so |
| `TrafficRace.SoloIdles` | resolver/internal/hostmanager/hostManager.go:98-111 | a request to a scheduled host changes nothing |
| `TrafficRace.ReadsDoNotWrite` | resolver/internal/hostmanager/hostManager.go:79-130 | the flag is read in one step and written in another, so every interleaving between them is covered |
| `HostManager.HostManager.GetHost` | resolver/internal/hostmanager/hostManager.go:43-76 | the cached host, else the one the name stands for, stored; nothing stored on an error |
| `HostManager.HostManager.ScheduleDisableTrafficForHost` | resolver/internal/hostmanager/hostManager.go:98-120 | one timer per host however often it is called; pending disables = 1 iff scheduled is kept |
| `HostManager.HostManager.DisableTimerFires` | resolver/internal/hostmanager/hostManager.go:112-119 | unscheduled, blocked, exactly one enable pending, blocked before or not |
| `HostManager.HostManager.DisableTraffic` | resolver/internal/hostmanager/hostManager.go:79-91 | pending enables = 1 iff blocked is kept |
| `HostManager.HostManager.EnableTimerFires` | resolver/internal/hostmanager/hostManager.go:123-130 | unblocked, no enable left |
| `HostManager.NewHostOf` | resolver/internal/hostmanager/hostManager.go:55-69 | a cluster-local name with any port and path gives its own host, in every field, if and only if it is read right |
| `HostNames.ExtractNamespaceAndService` | resolver/internal/hostmanager/hostManager.go:132-167 | the loop takes the leftmost match of the first of the sixteen patterns that matches |
| `HostNames.PatternOrder` | resolver/internal/hostmanager/hostManager.go:134-151 | the sixteen patterns and their order, by scheme, labels, suffix, port and wildcard |
| `HostMatch.MatchesRegexp` | resolver/internal/hostmanager/hostManager.go:134-153 | for each pattern, matching by longest runs without looking back fails exactly if no cut of the text matches, and else captures what the greedy match of the regular expression captures |
| `HostExtract.ExtractIs` | resolver/internal/hostmanager/hostManager.go:134-163 | exactly what any host that begins, after an optional scheme, with two labels is read as: what the first pattern before its own finds after the first dot, and else the two labels |
| `HostExtract.ExtractKinds` | resolver/internal/hostmanager/hostManager.go:152-167 | every text: a service and a namespace exactly if it holds two labels with a dot between, invalid exactly if it holds no label character, and otherwise a service with the "namespace not found" error |
| `HostAddress.ExtractAddressIff` | resolver/internal/hostmanager/hostManager.go:134-163 | a cluster-local address and whatever follows it give (svc, ns) if and only if no pattern before its own finds anything else in what follows; otherwise that is given |
| `HostAddress.OwnAddress` | resolver/internal/hostmanager/hostManager.go:134-141 | which of the six cluster-local patterns is the address's own, by its port, wildcard and scheme |
| `HostAddress.ExtractAddress` | resolver/internal/hostmanager/hostManager.go:134-163 | with no second suffix in it, whatever follows, the address gives (svc, ns) |
| `HostAddress.SecondAddressWins` | resolver/internal/hostmanager/hostManager.go:134-157 | with a second address in the path, that one is read if and only if it has a port, else the first |
| `HostRewrite.HostOnly` | resolver/internal/hostmanager/hostManager.go:178-190 | wildcard and path removal leave exactly the host |
| `HostRewrite.ReplaceIs` | resolver/internal/hostmanager/hostManager.go:193-200 | with two dots or more, exactly the first part is replaced |
| `HostRewrite.TargetHostIs` | resolver/internal/hostmanager/hostManager.go:55-60 | the target is the same address with only the service replaced |
| `HostRewrite.RewrittenIff` | resolver/internal/hostmanager/hostManager.go:170-200 | a host with any port and path is rewritten to the private service if and only if it has no scheme and a suffix after the namespace |
| `HostRewrite.ExtractHost` | resolver/internal/hostmanager/hostManager.go:134-163 | with any scheme, any of the suffixes `.svc.cluster.local`, `.svc` and none, any port and a path without dots, the two labels are read |
| `HostRewrite.RoundTrip` | resolver/internal/hostmanager/hostManager.go:43-200 | for every cluster-local host: extraction gives (svc, ns) if and only if it is read right; rewriting gives the private address, and extraction again (private, ns); the private name is a valid label |
| `Names.PrivateNameValid` | pkg/utils/utils.go:33-62 | the private name of a label-shaped service is a label of at most 63 characters, section 2.3.1 of RFC 1035 |
| `Names.SliceNameValid` | pkg/utils/utils.go:40-62 | the slice name is well formed and at most 253 characters |
| `Names.PrivateNameIs` | pkg/utils/utils.go:33-62 | the private name as written: fixed parts, the service cut to 41 characters without a hyphen at the cut, ten hash digits |
| `Names.SliceNameIs` | pkg/utils/utils.go:40-62 | the same for the slice name, cut to 209 |
| `Names.Collisions` | pkg/utils/utils.go:44-62 | equal private names mean equal hash characters; names up to 41 characters never collide |
| `NotifyLock.StepInv` | resolver/internal/operator/RPCClient.go:60-151 | every step keeps one owner per entry, the mutex locked while owned, and the window |
| `NotifyLock.OneOwner` | resolver/internal/operator/RPCClient.go:139-151 | an entry exists if and only if exactly one sender or release timer owns it |
| `NotifyLock.LockDiscipline` | resolver/internal/operator/RPCClient.go:61-69 | no unlock of an unlocked mutex, no blocking lock |
| `NotifyLock.SendsApart` | resolver/internal/operator/RPCClient.go:60-110 | any two notifications of a service name are at least retryDuration apart |
| `NotifyLock.SoloNotify` | resolver/internal/operator/RPCClient.go:60-110 | without an entry, a caller does notify and holds the window |
| `NotifyLock.SoloNotifyFails` | resolver/internal/operator/RPCClient.go:66-96 | if its request fails nothing is sent, and the window is held all the same |
| `NotifyLock.NotifiesIff` | resolver/internal/operator/RPCClient.go:60-65 | in every reachable state an undisturbed caller notifies if and only if the name has no entry; else its call leaves no trace |
| `NotifyLock.DroppedInWindow` | resolver/internal/operator/RPCClient.go:60-65 | within retryDuration of the last notification every call of the name is dropped, of whatever namespace |
| `NotifyLock.OtherNamespaceDropped` | resolver/internal/operator/RPCClient.go:148-151 | for any two namespaces, a run in which the second one's call is never notified |
| `NotifyLock.SoloRelease` | resolver/internal/operator/RPCClient.go:139-146 | a due timer frees the entry for the next caller |
| `ProbeMatch.ElementWise` | resolver/internal/crdcache/spec.go:121-138 | a prefix that is not empty and does not end in "/" matches exactly if its path elements start the path's |
| `ProbeMatch.TrailingSlash` | resolver/internal/crdcache/spec.go:134-137 | with a trailing slash: the same, except the bare path |
| `ProbeMatch.RootPrefix` | resolver/internal/crdcache/spec.go:124-129 | an empty prefix and "/" match exactly the paths that begin with a slash |
| `ProbeMatch.Transitive` | resolver/internal/crdcache/spec.go:124-138 | prefix matching is transitive for all prefixes |
| `ProbeMatch.VerbIff` | resolver/internal/crdcache/spec.go:64-69 | no method or a blank one admits every verb; else the trimmed method, in any case |
| `ProbeMatch.PathKinds` | resolver/internal/crdcache/spec.go:71-119 | which test each kind of path match stands for, in any case |
| `ProbeMatch.HitKinds` | resolver/internal/crdcache/spec.go:160-194 | a value is tried as an expression exactly if the kind says so, else compared |
| `ProbeMatch.PathMatches` | resolver/internal/crdcache/spec.go:71-119 | matches by kind with the defaults; an error exactly on an invalid expression |
| `ProbeMatch.ValueMatches` | resolver/internal/crdcache/spec.go:160-194 | matches iff some value does; an error exactly on an invalid expression with values to try |
| `ProbeMatch.HeadersMatch` | resolver/internal/crdcache/spec.go:143-158 | matches iff every header rule does; an error exactly if the first rule to fail is in error |
| `ProbeMatch.QueryParamsMatch` | resolver/internal/crdcache/spec.go:196-241 | matches iff every parameter rule does, errors counting as no |
| `ProbeMatch.MatchProbeResponse` | resolver/internal/crdcache/spec.go:32-62 | body and status, 200 for none, of the least rule that passes all four matchers; none exactly if no rule does |
| `Informers.PrefixIff` | operator/internal/informer/informer.go:170 | for slash-free names the prefix test holds exactly for the informers of that CRD and namespace |
| `Informers.KeyIff` | operator/internal/informer/informer.go:305-327 | keys agree exactly if all four lower-cased parts do |
| `Informers.Manager.StopInformer` | operator/internal/informer/informer.go:187-211 | removes the key and closes its channel, once; an error and no change if absent |
| `Informers.Manager.Add` | operator/internal/informer/informer.go:214-248 | adds one informer, or none if one runs; a failure leaves the map as it was |
| `Informers.Manager.EnableInformer` | operator/internal/informer/informer.go:251-301 | a failed sync closes its own channel and leaves the map as it was |
| `Informers.Manager.StopForCRD` | operator/internal/informer/informer.go:162-183 | stops the informers of the CRD and namespace, and no others |
| `Informers.Manager.Stop` | operator/internal/informer/informer.go:145-159 | stops all; no channel stays open |
| `Lifecycle.ReconciledInv` | operator/internal/controller/opsCRD.go:160-218 | a reconcile keeps, for every ElastiService: guard spent iff exactly the informer of the recorded target runs; nil leaves the current target watched and recorded; a failed start leaves no guard and the record as it was; guards and informers of others and public-service informers stay |
| `Lifecycle.FinalizedInv` | operator/internal/controller/opsCRD.go:83-148 | a finalization keeps it; its informers, guard and directory entry are gone, and exactly those |
| `Lifecycle.FinalizedLeavesNoTrace` | operator/internal/controller/opsCRD.go:83-148 | after every run, a finalization leaves no informer, guard or directory entry of its ElastiService, and every other entry as it was |
| `Lifecycle.ReconcileEnds` | operator/internal/controller/opsCRD.go:160-218 | an incomplete target or a failed finalizer changes nothing; otherwise the guard is spent exactly if nil is returned |
| `Lifecycle.NilMeansWatched` | operator/internal/controller/elastiservice_controller.go:55-116 | after any run of edits, failing and succeeding reconciles and finalizations, a reconcile that returns nil leaves exactly one scale-target informer, on the current target |
| `Lifecycle.GoodAnswersSucceed` | operator/internal/controller/opsCRD.go:189-217 | no past failure keeps a reconcile from returning nil |
| `Lifecycle.Reconciler.WatchScaleTargetRef` | operator/internal/controller/opsCRD.go:160-218 | the new informers, guards and result, exactly |
| `Lifecycle.Reconciler.ReconcileLive` | operator/internal/controller/elastiservice_controller.go:92-115 | the same for a reconcile, with the directory entry written only on success |
| `Lifecycle.Reconciler.FinalizeInformers` | operator/internal/controller/opsCRD.go:83-148 | through the manager: informers, guard and directory entry of the ElastiService gone, those of others kept |
| `MergePatch.PauseTouchesOnly` | pkg/scaling/scale_handler.go:433-460 | as a merge patch, section 2 of RFC 7396, the pause patch changes its two annotations and nothing else of any JSON document |
| `MergePatch.ResumeAfterPause` | pkg/scaling/scale_handler.go:435-447 | resuming after pausing is resuming |
| `MergePatch.PausePatchIs` | pkg/scaling/scale_handler.go:433-447 | the two annotations of the patch, by name and value |
| `Scaling.SettledScale` | pkg/scaling/scale_handler.go:401-422 | on a settled target one call gives max(spec, n), or 0 for 0 |
| `Scaling.ReachesIff` | pkg/scaling/scale_handler.go:401-422 | one call reaches its goal if and only if the spec was there or the status was not |
| `Scaling.TwoCallsReach` | pkg/scaling/scale_handler.go:360-431 | from any state two calls with the status catching up between them reach it |
| `Scaling.DownIff` | pkg/scaling/scale_handler.go:192-260 | down exactly if old enough, period on, and every trigger of at least one healthy and below threshold |
| `Scaling.OtherDirectionsIff` | pkg/scaling/scale_handler.go:192-260 | up exactly if old enough and outside or without a readable period, or by a first loud trigger that is active; none exactly if too young or by one that is unhealthy; an error exactly without triggers or by one that fails |
| `Scaling.SettingsAre` | pkg/scaling/scale_handler.go:299-305 | the cooldown in nanoseconds, 15 minutes for zero; at least one replica |
| `Scaling.GetsIff` | pkg/scaling/scale_handler.go:360-399 | a get without a mapping is tried once more, and no other |
| `Scaling.EveryWriteOk` | pkg/scaling/scale_handler.go:146-341 | in every run, with notifications between the list and the act of a poll and other writers between, 0 is written only a cooldown after creation and after every scale-up recorded by the listing, on quiet triggers; on KEDA targets only with the pause flag matching the direction |
| `Scaling.ZeroRespectsCooldown` | pkg/scaling/scale_handler.go:262-274 | if the status patches succeed and no notification comes between a list and its act, after every scale-up decision and notification |
| `Scaling.ForgottenIff` | pkg/scaling/scale_handler.go:146-312 | in every run, 0 is written within a cooldown of a scale-up if and only if some quiet poll goes through when a scale-up, but none recorded by its listing, is that recent |
| `Scaling.UnrecordedIsForgotten` | pkg/scaling/scale_handler.go:310-312 | such a run for every configuration: one failed status patch, and the next poll writes 0 at once |
| `Scaling.UnlistedIsForgotten` | pkg/scaling/scale_handler.go:146-171 | another: a notification, recorded, between the list and the act of a poll is undone at once |
| `Scaling.UpRestores` | operator/internal/elastiserver/elastiServer.go:187-215 | a notification whose calls go through brings a settled target to its minimum, KEDA resumed, the time recorded |
| `Scaling.UpActs` | pkg/scaling/scale_handler.go:159-182 | a poll that decides up, and a notification of a known service, do this |
| `Scaling.DownActs` | pkg/scaling/scale_handler.go:262-297 | a poll that goes through stops the target and pauses KEDA outside the listed cooldown, and changes nothing inside it |
| `Scaling.NothingActs` | pkg/scaling/scale_handler.go:159-170 | no direction, an error, an unknown service or a poll without a listing changes nothing |
| `Scaling.ScaleHandler.CalculateScaleDirection` | pkg/scaling/scale_handler.go:192-260 | the loop computes the direction of the first trigger that is not quiet |
| `Scaling.ScaleHandler.Scale` | pkg/scaling/scale_handler.go:360-431 | the write, the retry on a missing mapping, and every way of not writing |
| `Scaling.ScaleHandler.HandleScaleToZero` | pkg/scaling/scale_handler.go:262-297 | cooldown by the listed time, pause, then scale, each a condition of the next |
| `Scaling.ScaleHandler.HandleScaleFromZero` | pkg/scaling/scale_handler.go:307-341 | record, resume, then scale; a failed record does not stop it |
| `Scaling.ScaleHandler.CheckAndScale` | pkg/scaling/scale_handler.go:159-182 | one listed service of a poll, by its direction; an error or no direction changes nothing but ends the poll |
| `Scaling.ScaleHandler.ScaleTargetForService` | operator/internal/elastiserver/elastiServer.go:187-215 | a notification of a known service records, resumes and scales; of an unknown one changes nothing |
| `Finalizer.PassAbsorbs` | operator/internal/controller/opsCRD.go:78-156 | a pass, whatever of it fails, leaves the end of finalization unchanged, and reaches it if it removes the finalizer |
| `Finalizer.CleanPassFinishes` | operator/internal/controller/opsCRD.go:247-270 | a pass in which all goes through removes the finalizer |
| `Finalizer.PassPerObject` | operator/internal/controller/opsCRD.go:78-156 | what a pass leaves of each object depends on that object's own calls alone; the finalizer goes exactly if no call that was needed fails |
| `Finalizer.RemovedOnlyWhenClean` | operator/internal/controller/opsCRD.go:78-156 | for every sequence of passes and failures: finalizer gone means no slice, no private service, KEDA unpaused or gone, target at its minimum or gone, and the state of one clean pass |
| `Finalizer.UnsettledIff` | operator/internal/controller/opsCRD.go:133-139 | on a target in motion a successful pass leaves too few replicas exactly if enough still run while the spec asks for fewer |
| `Finalizer.Finalization.DeleteEndpointslice` | operator/internal/controller/opsEndpointslices.go:45-59 | no error: the slice is gone and nothing else changed; an error: nothing changed; an error exactly if the get fails or the delete of a slice that is there does |
| `Finalizer.Finalization.DeletePrivateService` | operator/internal/controller/opsServices.go:18-32 | the same for the private service |
| `Finalizer.UnpauseIff` | operator/internal/controller/opsCRD.go:113-130 | the outcome is exactly: no error and, on KEDA, a ScaledObject that exists resumed with its other annotations kept; missing, without KEDA or on an error, as it was |
| `Finalizer.Finalization.FinalizeIfDeleted` | operator/internal/controller/opsCRD.go:247-270 | the pass as a whole, and no error exactly if the finalizer is gone |
| `Cron.FindLastTriggerTime` | pkg/cronutil/cronutil.go:43-61 | terminates with a trigger in the lookback window, the latest there is if the window fits the horizon or the search gives up only at the end |
| `Cron.IsInEnabledPeriodAt` | pkg/cronutil/cronutil.go:20-39 | true only if some trigger is at most now and less than the duration ago, and exactly then under the same condition |
| `Cron.ScheduleExactIff` | pkg/cronutil/cronutil.go:26-38 | a schedule is answered right for every duration and time if and only if `Next` gives up only where no trigger follows |
| `Cron.FrequentIsExact` | pkg/cronutil/cronutil.go:26-38 | so every schedule with a trigger in each stretch of the horizon's length is |
| `Cron.ExactIff` | pkg/cronutil/cronutil.go:26-29 | for one duration: right for every schedule, and for every recurring one, if and only if duration + 24h fits the search horizon |
| `Cron.LeapDayMissed` | pkg/cronutil/cronutil.go:10-29 | the leap-day schedule recurs, and for any horizon short of eight years a window of the horizon's length that opens on 29 February 2104 is missed |

## Left out

- Reverse proxying, transports, dial back-off, buffer pools, response writers and the HTTP handlers around the modelled calls.
- Kubernetes and Prometheus clients, JSON decoding, events, logging and metrics: answers are inputs.
- SHA-256, regular expressions of users and cron parsing: parameters, with the few facts used stated.
- Switching an ElastiService between serve and proxy mode, and the status it records.
- Interleavings of `Add` with a stop of the same informer: the manager's methods run without interruption.
- Concurrent use of the queue sizes: their update is a load and a store, so only the balance of one caller holds.
- Two first requests of one host racing in `GetHost`, which would make two host objects: `TrafficRace` has one.
- Unicode: `Strings` folds and trims ASCII.
- crdcache polling, namespace lists, environment parsing, masking of log values: easy members.
- Throttler.Throttler.Try: asks for a positive retry duration, since with zero nothing bounds the iterations.
- Cron.FindLastTriggerTime: completeness is stated for lookbacks within the horizon or searches that do not give up early, the exact conditions by `ExactIff` and `ScheduleExactIff`.
- Cron.ScheduleExactIff: asks for a horizon of at least 24h, which the cron library's is.
- HostAddress.ExtractAddressIff: asks that what follows the suffix begin with neither a label character nor a dot; `ExtractIs` has no such condition.
- Hosts of one label: `ExtractIs` is about hosts that begin with two.
- Notifications and polls interleaved between the calls of one act: a poll is a list and an act, a notification one step.
