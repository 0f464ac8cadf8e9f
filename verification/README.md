# Verified model of the agent platform

A Dafny model of the parts of the platform that decide something over time or
over whole inputs: which agents run and for whom, which requests belong to one
session and how fairly they are queued, what a user's agent is configured with
and what survives a crash while it is being set up, and the stream, interval
and hardware algorithms around them. `dafny verify dfyconfig.toml` checks all
of it.

## How it is organised

**Agent slots.** `SlotTable.dfy` gives each critical section of the broker's
allocator as a function on its table, and `SlotSections.dfy` says in the fields of
the entries what they must do. `Slots.dfy` is the allocator object,
whose methods run those sections in place and are proved equal to the
functions. `SlotProtocol.dfy` makes every interleaving a transition system:
one step is one critical section, or one move of the environment (a backend
Start or Stop returning with either result, a pod created, a pod vanishing). Its
invariants hold for any number of goroutines, any K and any run:

- `SlotOwnership.dfy`: one owner per Start or Stop, and the bound max(used, K);
- `SlotLeases.dfy`: acquires minus releases = counter + what reconcile dropped;
- `SlotQueue.dfy`: first come, first served, and least recently used eviction;
- `SlotSelection.dfy`: no chosen skill selection is lost;
- `SlotCompute.dfy`: what really runs against what is counted;
- `SlotProfile.dfy`: the selection an agent was really set up with;
- `SlotScenarios.dfy`: concrete runs in which the last promises fail.

`PodLifecycle.dfy` is the pod backend's polling protocol under it.

**Fair share.** `QosChain.dfy` (chain fingerprints over an arbitrary hash),
`QosSessions.dfy` (the session index against a reference without an index),
`QosStreaks.dfy` (counting over histories), `QosFairness.dfy` (spend),
`QosKeys.dfy` (store keys), `QosTracker.dfy` (the tracker object) and
`QosHistories.dfy` (its answers over whole histories).

**Catalog.** `CatalogMerge.dfy` (config overlay and locked keys),
`CatalogSwap.dfy` (directory swap under crashes), `Skills.dfy` (selections).

**Streams and reports.** `SseLedger.dfy`, `PushParser.dfy`, `UsageTime.dfy`,
`Hardware.dfy`, with `WhiteSpace.dfy`, `LineFields.dfy` and `StringOrder.dfy` under
them.
`Wrappers.dfy` holds shared definitions.

## Where the code and its comments disagree

The model follows the code; these are the places where a comment promises more.

- `agent-broker/cmd/agent-broker/slots.go:35` says at most K agents run. The
  *counted* ones never exceed max(recovered, K) (`SlotBound`). The *running* ones
  stay among the counted ones exactly as long as no failed start is left behind
  by its cleanup and reconcile forgets no agent that still runs
  (`AccountedStep` and `AccountedRun`, both directions). In terms the broker can
  see: as long as every cleanup succeeds and no agent is forgotten of which a
  start ended since the listing (`CarefulRunningBound`). `StaleListingOverruns`
  and `LeakedStartOverruns` are runs with K = 1 and two agents: the listing is
  taken before the lock, and the error of the cleanup is only logged.
- `agent-broker/cmd/agent-broker/slots.go:289` says a running agent is restarted
  with a new selection before its next request is served. A start that carries a
  selection but finds a ready pod applies nothing, and the selection counts as
  applied all the same (`LeakedStartLosesSelection`). `ServedWithNewestSelection`
  says exactly when the promise holds, and `ServedIfCreated` gives the form the
  backend can check: the start created the pod it reports.
- `slots.go:336` zeroes `inflight` while leases may be out, and `Release` has no
  floor. `CutOff` says exactly how many requests an eviction, restart or reap
  then cuts off, and when any; `DroppedRequestCutsOffAnother` is a run in which
  the reaper stops an agent that is serving.
- `agent-catalog/agent_sync.py:195` says a crash leaves the old or the new
  directory in place. Between the two renames neither is in place; `SyncAtomic`
  shows that this is the one such state and that recovery repairs it.
- `pat-service/internal/qos/chain.go:55` says concatenation cannot alias across
  a field boundary. A model name may itself hold a NUL, so the model and tools
  of one request can spell a digest of another (`SpelledLinkShared`). `LevelsIff`
  says exactly when links at different positions agree: then, with the same
  messages following, or after a collision. `SpellsLength` is how a caller can
  rule it out.
- `agent-broker/cmd/agent-broker/main.go:405-410` takes the stored report for the
  selection in force when none is pending. The report is stored with its error
  discarded (`pods.go:386`), and a start may attach to a pod that never saw the
  selection; two commands at once may also both read the old one. So an accepted
  command can be undone by a later one about another skill
  (`UnstoredReportLosesWord`, `RacedCommandLosesWord`). `LastWriterWins` says for
  each skill exactly when its last word holds, and `CarefulLastWriterWins` gives
  conditions that can be checked: commands take turns, and a start that clears a
  selection created its pod with it and stored the report.
- `pat-service/cmd/pat-service/prom.go:236` says one running kernel is one
  machine. Closeness of boot times is not transitive; `HostsAreMachines` gives the
  exact condition for host names, `MachinesCountedIff` and `OneUnsharedIff` those
  for counting each GPU once, `TransitiveCountedOnce` one that can be checked, and
  `DriftCountsTwice` a GPU that is listed as two.
- `prom.go:277` keys a physical GPU by host, index and name joined by slashes, so
  two GPUs can have one key (`SlashHidesGpu`). `GpuCountedOnce` says exactly when a
  GPU is counted all the same, and `PlainCountedOnce` that slashes in GPU names
  alone do no harm.
- `pat-service/internal/qos/session.go:233`: the rotation counter counts each
  long run once if the limit is not negative; with a negative limit it never
  counts (`RotationsCountLongRuns`). And active users are never all ahead on
  spend exactly when the threshold is not negative or only one user is active
  (`NeverAllAhead`).

## Model

| member | source | states |
|---|---|---|
| SlotAllocator.Slots.Recover | agent-broker/cmd/agent-broker/slots.go:56-71 | every listed agent gets a fresh entry, all others stay |
| SlotAllocator.Slots.UsedLocked | agent-broker/cmd/agent-broker/slots.go:82-90 | the loop counts exactly the entries with an agent or an operation |
| SlotAllocator.Slots.LruIdleLocked | agent-broker/cmd/agent-broker/slots.go:96-106 | a least recently used agent among all those idle for the timeout, or none if there is none |
| SlotAllocator.Slots.TryAcquire | agent-broker/cmd/agent-broker/slots.go:127-192 | one pass through Acquire's loop makes the table and decision of the transition system, with a genuine least recently used victim, and that decision and table are the ones the entry's fields call for |
| SlotSections.TryDecides | agent-broker/cmd/agent-broker/slots.go:130-193 | which situation gets which decision: when a request waits, is served (with which agent and notice), attaches, restarts an idle agent, starts one or evicts |
| SlotSections.TryLeaves | agent-broker/cmd/agent-broker/slots.go:130-190 | what each decision leaves in the entries, the queue and the ticket count |
| SlotAllocator.Slots.DequeueLocked | agent-broker/cmd/agent-broker/slots.go:210-218 | removes one ticket and keeps the order of the rest |
| SlotAllocator.Slots.FinishStart | agent-broker/cmd/agent-broker/slots.go:229-247 | new table after a Start; the pending selection is cleared only if it is the one the start carried |
| SlotAllocator.Slots.FinishStop | agent-broker/cmd/agent-broker/slots.go:252-262 | new table after a Stop; a failed Stop keeps the agent |
| SlotAllocator.Slots.Release | agent-broker/cmd/agent-broker/slots.go:265-273 | one request less on that entry, no floor |
| SlotAllocator.Slots.SetPending | agent-broker/cmd/agent-broker/slots.go:291-295 | a new identity is pending for that entry |
| SlotAllocator.Slots.Reconcile | agent-broker/cmd/agent-broker/slots.go:329-342 | forgets exactly the settled agents missing from the listing |
| SlotAllocator.Slots.MarkReaped | agent-broker/cmd/agent-broker/slots.go:356-374 | marks and lists, each once, exactly the agents without operation or request that are unused for IdleShutdown, on another image, or past MaxAgentLifetime |
| SlotSections.ReapTakes | agent-broker/cmd/agent-broker/slots.go:345-374 | the same of the transition system's step, in entry fields |
| SlotSections.ReconcileForgets | agent-broker/cmd/agent-broker/slots.go:329-342 | the same of the transition system's step, entry by entry |
| SlotSections.RecoveredInUse | agent-broker/cmd/agent-broker/slots.go:63-68 | a recovered agent counts as in use for one idle timeout |
| SlotSections.ServedInUse | agent-broker/cmd/agent-broker/slots.go:130-139 | so does a served one |
| SlotSections.StartedInUse | agent-broker/cmd/agent-broker/slots.go:238-239 | so does a started one |
| SlotSections.ReleasedInUse | agent-broker/cmd/agent-broker/slots.go:265-273 | so does a released one, and one request less is counted |
| SlotSections.StartThenServe | agent-broker/cmd/agent-broker/slots.go:130-139 | after a start that carried what is pending the next request gets the new agent and its notice, or the older notice, once |
| SlotSections.StartThenRestart | agent-broker/cmd/agent-broker/slots.go:152-159 | a selection saved while a start was running makes the next idle request restart the agent |
| SlotSections.SelectThenStart | agent-broker/cmd/agent-broker/slots.go:162-166 | a saved selection is the one the next start carries |
| SlotSections.EndsLeave | agent-broker/cmd/agent-broker/slots.go:229-262 | what a failed start, a stop and a failed stop leave in the entry |
| SlotOwnership.OwnershipStep | agent-broker/cmd/agent-broker/slots.go:141-180 | every step keeps: busy holds iff exactly one goroutine owns a Start or Stop of that agent |
| SlotOwnership.OwnershipRun | agent-broker/cmd/agent-broker/slots.go:220-263 | one operation per profile in every world of every run |
| SlotOwnership.UsedStep | agent-broker/cmd/agent-broker/slots.go:162-170 | a step claims at most one slot, only in Acquire and only below K; no other step adds a counted agent |
| SlotOwnership.SlotBoundStep | agent-broker/cmd/agent-broker/slots.go:82-90 | used after a step <= max(used before, K) |
| SlotOwnership.SlotBound | agent-broker/cmd/agent-broker/slots.go:35-39 | over any run, used <= max(recovered, K) |
| SlotLeases.SettledStep | agent-broker/cmd/agent-broker/slots.go:130-180 | every step keeps: busy, absent or unkeyed agents have no request counted |
| SlotLeases.SettledRun | agent-broker/cmd/agent-broker/slots.go:372 | the same in every world of every run |
| SlotLeases.LeaseConservation | agent-broker/cmd/agent-broker/slots.go:130-139 | over any run and for each agent, outstanding requests = inflight + what reconcile dropped |
| SlotLeases.TakenQuiet | agent-broker/cmd/agent-broker/slots.go:152-178 | an agent is evicted or restarted only with its counter at zero, reaped only with none counted |
| SlotLeases.CutOff | agent-broker/cmd/agent-broker/slots.go:333-337 | how many requests taking an agent cuts off: dropped plus counter, so some iff more were dropped than the counter is below zero, and for an eviction or restart exactly the dropped ones |
| SlotLeases.NoRequestCutOff | agent-broker/cmd/agent-broker/slots.go:358-373 | while nothing was dropped, the counter is the number of requests and no agent with one is ever stopped |
| SlotQueue.QueuedRun | agent-broker/cmd/agent-broker/slots.go:182-190 | the queue is strictly in issue order and holds exactly the tickets of unreturned Acquire calls, one each |
| SlotQueue.FirstComeFirstServed | agent-broker/cmd/agent-broker/slots.go:140-180 | only the oldest waiting request claims a slot or evicts; a claim is below K, an eviction at K or above and of minimal last use |
| SlotSelection.SelectedStep | agent-broker/cmd/agent-broker/slots.go:238-242 | every step keeps: nothing is pending iff the latest selection is the latest a successful start carried |
| SlotSelection.NoLostSelection | agent-broker/cmd/agent-broker/slots.go:289-295 | the same in every world of every run, whatever SetPending races with |
| SlotCompute.StopsHoldRun | agent-broker/cmd/agent-broker/slots.go:250-263 | a stopped agent stays down until its owner lets go of it |
| SlotCompute.AccountedStep | agent-broker/cmd/agent-broker/slots.go:222-237 | a step keeps running agents within the counted ones iff it is clean (no start left behind by its cleanup, no running agent forgotten) |
| SlotCompute.AccountedRun | agent-broker/cmd/agent-broker/slots.go:317-343 | every running agent is counted all along a run iff all its steps are clean |
| SlotCompute.RunningBound | agent-broker/cmd/agent-broker/slots.go:35-39 | over clean runs at most max(recovered, K) agents run |
| SlotCompute.CleanedUp | agent-broker/cmd/agent-broker/slots.go:223-228 | a cleanup whose Stop returned no error left nothing running |
| SlotCompute.ForgottenWasStarted | agent-broker/cmd/agent-broker/slots.go:320-337 | a running agent is forgotten only if a start of it ended between the listing and its use |
| SlotCompute.CarefulIsClean | agent-broker/cmd/agent-broker/slots.go:220-237 | successful cleanups and listings without such a start make every step clean |
| SlotCompute.CarefulRunningBound | agent-broker/cmd/agent-broker/slots.go:35-39 | under these two conditions the broker can see, at most max(recovered, K) agents run |
| SlotProfile.FaithfulStep | agent-broker/cmd/agent-broker/slots.go:144-170 | every step keeps, agent by agent and over any run: with nothing pending the profile has the newest selection iff the last one reported was kept |
| SlotProfile.LostBreaks | agent-broker/cmd/agent-broker/pods.go:370-388 | a faithful profile is broken by exactly the steps in which a start reports a ready pod not set up with the selection it carries |
| SlotProfile.FaithfulRun | agent-broker/cmd/agent-broker/slots.go:220-248 | the same in every world of every run |
| SlotProfile.ServedWithNewestSelection | agent-broker/cmd/agent-broker/slots.go:289-295 | over any run, the agent Acquire returns was set up with the newest selection iff the last selection a start of it reported was not lost |
| SlotProfile.CreatedIsKept | agent-broker/cmd/agent-broker/pods.go:370-376 | a start that created the pod it reports loses nothing |
| SlotProfile.ServedIfCreated | agent-broker/cmd/agent-broker/pods.go:370-388 | if every successful start of the agent with a selection created its pod, Acquire returns it with the newest one |
| SlotScenarios.StaleListingOverruns | agent-broker/cmd/agent-broker/slots.go:320-337 | a run with K = 1 and two running agents, by a stale listing |
| SlotScenarios.LeakedStartOverruns | agent-broker/cmd/agent-broker/slots.go:223-236 | a run with K = 1 and two running agents, by a failed cleanup |
| SlotScenarios.LeakedStartLosesSelection | agent-broker/cmd/agent-broker/slots.go:240-242 | a run in which a selection counts as applied although no pod was created with it |
| SlotScenarios.DroppedRequestCutsOffAnother | agent-broker/cmd/agent-broker/slots.go:265-273 | a run in which the reaper takes an agent that serves a request |
| PodLifecycle.Start | agent-broker/cmd/agent-broker/pods.go:359-400 | the polling loop does what the recursive protocol on the answers says |
| PodLifecycle.AtMostOneCreate | agent-broker/cmd/agent-broker/pods.go:366-376 | one create iff some answer Start acted on was not-found, else none; never two |
| PodLifecycle.CreateAfterNotFound | agent-broker/cmd/agent-broker/pods.go:370-376 | the create comes right after the first not-found answer |
| PodLifecycle.StartedIsReady | agent-broker/cmd/agent-broker/pods.go:379-388 | a returned pod is the last one seen, ready and not terminating |
| PodLifecycle.ReadyIff | agent-broker/cmd/agent-broker/pods.go:288-295 | a pod is ready iff its first Ready condition says True |
| PodLifecycle.FailedGaveUp | agent-broker/cmd/agent-broker/pods.go:309-330 | Start fails iff the last answer was an error, a rejected create, or a pod failed by its phase, its sync or what its containers wait for |
| PodLifecycle.Stop | agent-broker/cmd/agent-broker/pods.go:598-616 | succeeds iff the delete was not refused and some poll finds the pod gone |
| QosChain.Chain | pat-service/internal/qos/chain.go:58-87 | the loop computes every link of the recurrence |
| QosChain.LastNul | pat-service/internal/qos/chain.go:55-57 | splitting at the last NUL is unambiguous even if the first field holds NULs |
| QosChain.ChainSound | pat-service/internal/qos/chain.go:50-57 | equal links at one position: same model, tools and messages up to there, or a shown collision; and the converse |
| QosChain.HashedIff | pat-service/internal/qos/chain.go:70-81 | the strings hashed for links at different positions are equal iff the messages are and what precedes them is |
| QosChain.LevelsIff | pat-service/internal/qos/chain.go:70-84 | links at different positions agree iff the model and tools of one request spell a link of the other and the same messages follow, or the same messages follow a collision |
| QosChain.ChainLevels | pat-service/internal/qos/chain.go:55-57 | so never short of a collision or of a request whose model and tools spell a digest |
| QosChain.SpellsLength | pat-service/internal/qos/chain.go:72-74 | that needs a model name and tools of 31 bytes together |
| QosChain.SpelledLinkShared | pat-service/internal/qos/chain.go:72-80 | wherever a link reads as a model, a NUL and tools, a canonical request with those and the remaining messages shares every later link |
| QosChain.LinksExtend | pat-service/internal/qos/chain.go:63-85 | the links of a conversation are a prefix of those of any extension |
| QosChain.LinksBranch | pat-service/internal/qos/chain.go:50-57 | links of two requests agree only on a common prefix, or a collision or spelled digest is shown |
| QosSessions.SearchIsRootLookup | pat-service/internal/qos/session.go:150-163 | the backward longest-prefix search returns what one lookup of the root link returns |
| QosSessions.TrackerIsReference | pat-service/internal/qos/session.go:165-179 | over any history the index answers what the reference without an index answers |
| QosSessions.LiveLinksFollowRoots | pat-service/internal/qos/session.go:171-179 | every live link's root is live, of the same session, and expires no earlier |
| QosStreaks.StreakIsRunLength | pat-service/internal/qos/redis.go:82-106 | BumpStreak returns the length of the current run |
| QosStreaks.RunIsMaximal | pat-service/internal/qos/redis.go:90-100 | a run stays in one session without gaps and could not have begun earlier |
| QosStreaks.RunLengthCounts | pat-service/internal/qos/redis.go:90-100 | the length of a run is the number of the user's requests in it |
| QosStreaks.RotationsCountLongRuns | pat-service/internal/qos/session.go:233-242 | the rotation counter is the number of maximal runs longer than the limit; zero for a negative limit |
| QosFairness.MinActiveSpend | pat-service/internal/qos/redis.go:163-184 | the loop returns the true minimum over the other active users, or that there is none |
| QosFairness.AheadOnSpend | pat-service/internal/qos/session.go:259-269 | true iff some other active user has spent more than the threshold less |
| QosFairness.LeastSpenderNotAhead | pat-service/internal/qos/session.go:251-258 | the least spender is never ahead |
| QosFairness.NeverAllAhead | pat-service/internal/qos/session.go:251-258 | active users can never all be ahead iff the threshold is not negative or there is one user |
| QosFairness.AheadUpwardClosed | pat-service/internal/qos/session.go:268 | whoever has spent as much as a user who is ahead is ahead |
| QosFairness.CostPerToken | pat-service/internal/qos/session.go:286-290 | each completion token costs beta, each uncached prompt token alpha, a cached one nothing |
| QosFairness.SpendIsSpellTotal | pat-service/internal/qos/redis.go:127-153 | spend is the total since the last idle window, and zero after one |
| QosKeys.FamiliesDisjoint | pat-service/internal/qos/redis.go:27-35 | keys of different families never coincide, whatever the user names contain |
| QosKeys.KeysInjective | pat-service/internal/qos/redis.go:29-35 | equal keys come from the same user and link or session |
| QosTracker.Tracker.FindSession | pat-service/internal/qos/session.go:150-163 | the backward loop finds the session of the longest live prefix |
| QosTracker.Tracker.RefreshLinks | pat-service/internal/qos/session.go:177-179 | the loop stores the session under every link of the request |
| QosTracker.Tracker.Observe | pat-service/internal/qos/session.go:138-195 | one request: match, refreshed index, step, streak, dispatch time, rotation and band, whose meaning the rows on QosHistories give |
| QosTracker.Tracker.AssignBand | pat-service/internal/qos/session.go:219-249 | demotion by streak or spend before warmth, counters and times written once |
| QosTracker.Tracker.RecordCost | pat-service/internal/qos/session.go:281-296 | charges the user the cost of uncached and completion tokens, nothing if not positive |
| QosHistories.OnlyChatsCount | pat-service/internal/qos/session.go:139-148 | requests without a fingerprint leave no trace: a history goes through the states of its chat requests alone |
| QosHistories.ChatsAnswered | pat-service/internal/qos/session.go:139-195 | and each chat request is answered as it would be among those alone |
| QosHistories.ObservedBand | pat-service/internal/qos/session.go:204-249 | over any chat history, whatever spends and active users each request finds, the answer is the reference session and its step; demoted iff its run is too long or its user is ahead, else warm iff the previous visit to the session was just before |
| QosHistories.RequestMakesActive | pat-service/internal/qos/session.go:185-186 | after a chat request its user is one that others are compared with, and nobody drops out |
| QosHistories.ObservedRotations | pat-service/internal/qos/session.go:232-242 | the tracker's rotation counter after any chat history is the number of long maximal runs |
| QosHistories.StepsEvolve | pat-service/internal/qos/redis.go:63-73 | over any chat history the stored counter is, for each user and session, the step of the last visit until its time to live |
| QosHistories.ObservedStep | pat-service/internal/qos/session.go:181-194 | each request is answered with the number of the user's visits to the session since the last gap |
| QosHistories.StepCounts | pat-service/internal/qos/redis.go:63-73 | that step is the size of a set of visits |
| QosHistories.StepsUnbroken | pat-service/internal/qos/redis.go:63-73 | which begins after a gap of at least ttl, or with the first visit, and has no gap within |
| QosHistories.DispatchesEvolve | pat-service/internal/qos/redis.go:108-125 | over any chat history the store holds, for each user and session, the second of the last visit until its time to live |
| QosHistories.WarmWindow | pat-service/internal/qos/session.go:245-247 | warm only within the warm time of the previous visit; surely warm up to a second less, as stored times lose their fraction |
| QosHistories.AnyAnswered | pat-service/internal/qos/session.go:138-195 | over any history, a request without links gets no answer and any other what it should among the chat requests alone |
| QosHistories.RequestsTracked | pat-service/internal/qos/session.go:138-195 | for any hash and requests in order of time the digests give the reference's answers, or two requests show a collision or spelled digest |
| QosHistories.RequestsBanded | pat-service/internal/qos/session.go:138-249 | for any hash and any requests in order of time, answers, bands and rotation counters are those of the reference over the chat requests, or two requests show a collision or spelled digest |
| QosHistories.SameRootIsSameOpening | pat-service/internal/qos/chain.go:70-76 | two requests have the same root iff they agree on model, tools and first message, short of a collision |
| CatalogMerge.Overlay | agent-catalog/agent_sync.py:144-151 | the key-by-key loop computes the recursive overlay |
| CatalogMerge.MergeReads | agent-catalog/agent_sync.py:144-151 | what every path of the overlaid tree reads, from the two trees |
| CatalogMerge.GetSetBelow | agent-catalog/agent_sync.py:163-175 | at and below a written path the written value is read; a removed one is gone |
| CatalogMerge.GetSetApart | agent-catalog/agent_sync.py:163-175 | every path incomparable with the written one reads as before |
| CatalogMerge.MergedConfig | agent-catalog/agent_sync.py:178-183 | every locked key reads as in the catalog and every path apart from them as overlaid |
| CatalogMerge.RelockKeeps | agent-catalog/agent_sync.py:180-182 | putting one key back never undoes another, even a prefix or extension of it |
| CatalogMerge.LockedKeysWin | agent-catalog/agent_sync.py:178-183 | all locked keys win at once, in any order and however they overlap, absence included |
| CatalogMerge.UnlockedPathsKept | agent-catalog/agent_sync.py:178-183 | paths incomparable with every locked key keep their overlaid value |
| CatalogSwap.AgentHome.SwapDir | agent-catalog/agent_sync.py:194-203 | goes through exactly the listed states and ends with the staged tree in place |
| CatalogSwap.AgentHome.Sync | agent-catalog/agent_sync.py:398-445 | goes through exactly the states of a sync and ends with the two final directories alone |
| CatalogSwap.InstallServes | agent-catalog/agent_sync.py:194-203 | one install serves the old tree before the second rename and the new one from it on |
| CatalogSwap.SyncAtomic | agent-catalog/agent_sync.py:389-445 | wherever a sync is killed each directory has one whole tree to serve, old before its commit and new after; it is out of place only between the renames |
| CatalogSwap.SyncEnds | agent-catalog/agent_sync.py:426-445 | an uninterrupted sync repairs any state whatever |
| CatalogSwap.UpgradesServe | agent-catalog/agent_sync.py:398-402 | over any number of killed syncs each directory serves one whole tree of one sync, the enabled part never from a later sync than the catalog |
| CatalogSwap.NeverLost | agent-catalog/agent_sync.py:398-402 | once a tree is served no kill takes it away; after recovery the final place holds a whole tree |
| Skills.Enabled | agent-broker/cmd/agent-broker/skills.go:45-60 | the broker's table: every name, on iff its last entry is on |
| Skills.EnabledSkills | agent-catalog/agent_sync.py:129-141 | exactly the names of the entries that are on, in the catalog's order |
| Skills.OnNamesKeep | agent-catalog/agent_sync.py:132-141 | each skill that is on keeps its place among the names, each other one is left out |
| Skills.RulesAgree | agent-broker/cmd/agent-broker/skills.go:45-46 | with distinct names the broker shows as on exactly what the agent gets; in any catalog iff no entry that is on is followed by an off one of its name |
| Skills.Apply | agent-broker/cmd/agent-broker/skills.go:62-89 | the loop computes the switched selection, sorted, and the refused names in order |
| Skills.RefusedSays | agent-broker/cmd/agent-broker/skills.go:68-76 | an unknown name is refused as not in the catalog, a required one to be switched off as required, no other |
| StringOrder.SortSorts | agent-broker/cmd/agent-broker/skills.go:86-87 | the lists come out in ascending order with every name as often as it was |
| Skills.OnlyDeviations | agent-broker/cmd/agent-broker/skills.go:77-84 | after any history the lists hold a skill exactly if its last word differs from its default, iff that word was kept and no list has it that should not |
| Skills.LastWriterWins | agent-broker/cmd/agent-broker/main.go:399-438 | over any history of commands and starts: required skills are on; any other has the polarity of its last accepted command since the last reset, or its default, iff that word was kept |
| Skills.RefusedChangeNothing | agent-broker/cmd/agent-broker/main.go:422-431 | refused names keep their state; a command that is refused in full changes nothing |
| Skills.CarefulKeeps | agent-broker/cmd/agent-broker/pods.go:381-388 | words are kept if commands take turns and each start that clears a selection created its pod with it and stored the report; with nothing pending the profile then says what is in force |
| Skills.CarefulLastWriterWins | agent-broker/cmd/agent-broker/main.go:399-438 | under these conditions the last writer wins for every skill |
| Skills.CarefulDeviations | agent-broker/cmd/agent-broker/skills.go:77-84 | and the lists, in force and in the profile, hold exactly the skills whose last word differs from their default |
| Skills.UnstoredReportLosesWord | agent-broker/cmd/agent-broker/pods.go:386 | a history in which a start that attached or stored no report makes a later command undo an accepted one |
| Skills.RacedCommandLosesWord | agent-broker/cmd/agent-broker/main.go:404-428 | two commands at once, the second undoing the first |
| SseLedger.LinesJoin | pat-service/cmd/pat-service/ledger.go:181-191 | the lines of a stream are what is between its newlines |
| SseLedger.Reader.Read | pat-service/cmd/pat-service/ledger.go:176-196 | bytes pass unchanged; exactly the completed lines are inspected, with their times, plus the rest at the end |
| SseLedger.Reader.Buffer | pat-service/cmd/pat-service/ledger.go:201-210 | keeps the unfinished line, or nothing once it is too long |
| SseLedger.Reader.InspectLine | pat-service/cmd/pat-service/ledger.go:212-259 | inspects the buffered line, updates the record as that line says and starts a new line |
| SseLedger.EventIff | pat-service/cmd/pat-service/ledger.go:213-222 | a line is an event iff it begins with data: and more follows than white space or [DONE]; then that is decoded |
| SseLedger.SilentIff | pat-service/cmd/pat-service/ledger.go:245-248 | a choice carries no output iff all its texts are empty and its tool calls absent, null or an empty list |
| WhiteSpace.SpaceIsUnicode | pat-service/cmd/pat-service/ledger.go:213-219 | the bytes of a character count as white space iff Unicode says so |
| WhiteSpace.TrimSplits | pat-service/cmd/pat-service/ledger.go:213-219 | trimming takes UTF-8 white space off both ends of a line, all of it and nothing else |
| SseLedger.ReadsDeliverLines | pat-service/cmd/pat-service/ledger.go:176-210 | however the bytes are cut into reads, the inspected lines are those of the bytes, too long ones as empty |
| SseLedger.ChunkingInvariance | pat-service/cmd/pat-service/ledger.go:159-163 | read to its end in any pieces, a stream gives its lines and what follows its last newline |
| SseLedger.UsageIsLast | pat-service/cmd/pat-service/ledger.go:256-258 | the usage recorded is that of the last line that has one |
| SseLedger.OutputTimes | pat-service/cmd/pat-service/ledger.go:245-255 | the recorded times are those of the first and the last line with output |
| SseLedger.FirstBeforeLast | pat-service/cmd/pat-service/ledger.go:249-252 | under a clock that never runs backwards first output <= last output |
| PushParser.HexRoundTrip | cred-gateway/cmd/cred-gateway/main.go:210-213 | a written header reads as its number |
| PushParser.HexDigitIs | cred-gateway/cmd/cred-gateway/main.go:239 | the digits are 0-9, a-f and A-F and nothing else |
| PushParser.HexValueIs | cred-gateway/cmd/cred-gateway/main.go:239-242 | a header is the number its four digits write |
| LineFields.FieldsAreWords | cred-gateway/cmd/cred-gateway/main.go:256 | the fields of a line are its words: white space and these alternate, and no other words do |
| PushParser.CheckPush | cred-gateway/cmd/cred-gateway/main.go:222-266 | answers what the request says by the grammar, replays the input byte for byte, buffers at most 2^20 - 1 + 65535 bytes, and terminates |
| PushParser.OneReading | cred-gateway/cmd/cred-gateway/main.go:233-265 | a request reads in one way only |
| PushParser.AnswerIff | cred-gateway/cmd/cred-gateway/main.go:219-221 | passed iff it is allowed three-field commands and a flush within the limit; refused iff and for what it says |
| PushParser.TextFields | cred-gateway/cmd/cred-gateway/main.go:255-257 | a written command, with or without capabilities, reads as its three names |
| PushParser.AllowedPushPasses | cred-gateway/cmd/cred-gateway/main.go:243-246 | written requests without a denied ref, within the limit, are read back and passed |
| PushParser.DeniedPushRefused | cred-gateway/cmd/cred-gateway/main.go:261-263 | the first denied ref is refused by name |
| PushParser.UnsupportedPushRefused | cred-gateway/cmd/cred-gateway/main.go:255-260 | after allowed commands a line of any number of words but three before its NUL is refused as unsupported |
| PushParser.VerdictAfter | cred-gateway/cmd/cred-gateway/main.go:233-264 | after allowed commands the verdict rests on what follows |
| PushParser.LongPushRefused | cred-gateway/cmd/cred-gateway/main.go:265 | commands that reach the limit first are too much |
| UsageTime.GroupIsStarted | pat-service/cmd/pat-service/admin_stats.go:184-186 | the running sum, peers included, numbers each row by the islands begun up to it |
| UsageTime.IslandsMeasure | pat-service/cmd/pat-service/admin_stats.go:181-188 | on sorted rows the islands add up to the moments covered |
| UsageTime.OrderBySorts | pat-service/cmd/pat-service/admin_stats.go:182 | ordering sorts the rows and keeps each as often as it occurs |
| UsageTime.ActiveTimeIsBusyTime | pat-service/cmd/pat-service/admin_stats.go:172-190 | the query's active time is the number of moments of the range with a request under way |
| UsageTime.ActiveTimeBounds | pat-service/cmd/pat-service/admin_stats.go:172-190 | active <= summed, with equality iff no two clipped requests overlap; active <= the range |
| UsageTime.SummedTimeIsOwnTime | pat-service/cmd/pat-service/admin_stats.go:189 | the summed time adds up, request by request, the moments of the range at which it was under way |
| UsageTime.TimedRequestsAre | pat-service/cmd/pat-service/admin_stats.go:180-190 | the timed requests are those that took any time |
| Hardware.GroupHosts | pat-service/cmd/pat-service/prom.go:236-258 | sorts the nodes, names each host after the smallest node close to it and lists the other close ones in order |
| Hardware.KernelsTell | pat-service/cmd/pat-service/prom.go:247-257 | nodes of different builds never share a host name or list each other; others list each other iff they booted at most 120 seconds apart |
| Hardware.KnownKeeps | pat-service/cmd/pat-service/prom.go:283-289 | readings of known nodes stay in order, others are left out |
| Hardware.SharesBothWays | pat-service/cmd/pat-service/prom.go:254-256 | sharing a host is symmetric |
| Hardware.HostsAreMachines | pat-service/cmd/pat-service/prom.go:236-253 | same host name iff close, for all nodes, exactly when closeness is transitive |
| Hardware.ListGpus | pat-service/cmd/pat-service/prom.go:277-305 | each reading of a known node is listed in order with the node that listed the GPU before, if any |
| Hardware.KeyCountedOnce | pat-service/cmd/pat-service/prom.go:296-303 | of the readings with one key exactly the first is unshared and every other points to its node |
| Hardware.GpuCountedOnce | pat-service/cmd/pat-service/prom.go:277-303 | for every host, index and name: exactly one reading is unshared and every other points to its node, iff no other GPU with the same key comes first |
| Hardware.PlainCountedOnce | pat-service/cmd/pat-service/prom.go:296 | so it is whenever no host name or index holds a slash |
| Hardware.SlashHidesGpu | pat-service/cmd/pat-service/prom.go:296-299 | two GPUs of one node with one key, the second listed nowhere |
| Hardware.MachinesCountedIff | pat-service/cmd/pat-service/prom.go:190-193 | whatever nodes really are one machine, each GPU is counted once and only for its machine iff host names tell apart the machines of the nodes that report alike GPUs |
| Hardware.OneUnsharedIff | pat-service/cmd/pat-service/prom.go:296-303 | of the readings of one index and name exactly one is unshared iff all their nodes have the same first close node |
| Hardware.TransitiveCountedOnce | pat-service/cmd/pat-service/prom.go:236-248 | each GPU is counted once for the nodes close to each other where closeness carries over from the nodes that report GPUs |
| Hardware.DriftSplitsHost | pat-service/cmd/pat-service/prom.go:248 | three drifted nodes of one machine that get two host names |
| Hardware.DriftCountsTwice | pat-service/cmd/pat-service/prom.go:296-303 | their one GPU is then listed as two |

## Left out

- Deadlines, wake-ups, cancellation and the notify channel of Acquire: a waiting request may give up at any time, and nothing is claimed about when it is served.
- `touch`, `Pending` and `Running` of the allocator: a persisted timestamp and two reads.
- Entries are values in a map where the program holds pointers to them; entries are never removed, so a held pointer and a lookup by name agree.
- The order in which Reap stops its victims: any order is allowed.
- Pod and credential details of the backend (specs, annotations, endpoints): the API server is the list of its answers.
- A pod created only after its start has failed and its cleanup found nothing (a create whose answer was lost): pods appear only while their start is running.
- Failing store calls and concurrent store access in the session tracker: Observe is one atomic step whose reads and writes succeed. The sweep that prunes active users appears only as the active set each request finds, which is arbitrary.
- SHA-256, hex encoding of links, JSON parsing and canonical JSON: the hash is any function to 32 bytes, messages are canonical bytes without a raw NUL.
- Session ids come from outside and are never empty, so "no session" is None instead of the empty string.
- QosKeys.KeysInjective: links are 64 hexadecimal digits and session ids have the form the program mints.
- Metrics other than the rotation counter, and the harness and role labels.
- Floating point: spends, costs and boot times are real numbers.
- CatalogMerge.MergedConfig: SetPath works on values, so the in-place update of nested dictionaries, the deep copies against aliasing and the order of keys are not captured; dotted keys come already split.
- File contents and permissions in a catalog sync, and syncing to disk: a directory is absent, partial or one whole tree, and a kill keeps the operations that were done.
- Personal directories, soul text, MCP servers and the runtime's own files of agent_sync: not part of this model.
- Rendering of the skill list and command parsing from chat text; a catalog that changes between commands.
- SseLedger.Reader.InspectLine: JSON decoding of a payload is a parameter, so what malformed JSON is stays open.
- Unzipping a push, and read errors other than an early end.
- The session span query, the latency and timeline reports, and the WHERE clause of the usage query.
- UsageTime.ActiveTimeIsBusyTime: times are whole microseconds, so a moment is a microsecond.
- Sensors, loads and sample values of the hardware report.
- HTTP handlers, proxies, authentication, dashboards, migrations and deployment: not part of this model.
