# Verified model of the stateful cores of web-infra

web-infra is a Python framework for business services. This project models the parts of it that keep state and proves
what their documentation promises about that state, over all inputs and whole runs. Where a promise does not hold for
the code, the model follows the code: a lemma shows the failing case and another gives the exact condition under which
the promise holds.

`dafny verify dfyconfig.toml` checks everything.

## What is modelled

- **Smooth weighted round-robin** (`WeightedRoundRobin.dfy`, `RoundRobinStretches.dfy`, `RoundRobinRepeats.dfy`): the
  balancer with its reset, its weights as reals, lists in any order, hosts that may be listed more than once. Main
  results: exact shares per cycle and the deviation bound at every call, and which hosts can be served twice in a row.
  Sums of reals are in `Sums.dfy`; `Times(n, x)` there is the product of a count and a real.
- **Dependency closure** (`DependencyClosure.dfy`, `DependencyOrders.dfy`, `Registries.dfy`): the depth-first search
  that both registries share, the registries around it, and the order in which plugins are built, started and stopped.
- **In-memory search** (`SearchIndex.dfy`, `SearchFormula.dfy`, `SearchEngine.dfy`): the four dictionaries of a
  namespace agree with the documents after every operation, and a search through the index ranks as scanning the
  documents does. The text is given as its tokens, the logarithm is a parameter.
- **Message queue** (`MessageQueue.dfy`, `QueueOrder.dfy`, `MessageQueueClass.dfy`): every step between two awaits is
  one action; the proofs are about all interleavings. A record of accepted, consumed, dead, dropped and lost messages
  is kept beside the state.
- **Idempotent consumption** (`IdempotentConsumer.dfy`): deliveries and ends of handlers as events of one history.
- **Token store** (`JwtTokenStore.dfy`, `TokenDevices.dfy`): the three maps against an append-only log of saves,
  revocations and look-ups, and among themselves.
- **Memory cache** (`MemoryCache.dfy`, `CacheReads.dfy`): entries in write order, expiry, capacity, against a log of
  writes, deletions and reads.
- **Payments** (`PaymentLedger.dfy`, `PaymentChannel.dfy`, `PaymentCallbacks.dfy`, `PaymentRuns.dfy`,
  `PaymentRefunds.dfy`, `PaymentCloseTask.dfy`, `PaymentClasses.dfy`): the state machine, the ledger with its two
  indexes over shared records, the channel's entry points as steps, runs of steps, refunds, and the close task.
- **Masking of personal data** (`PrivacyGuard.dfy`, `PrivacyCoverage.dfy`, `PrivacyHiding.dfy`): choosing among
  overlapping matches, splicing their masks, which detected text they hide and what the output tells about the text.

Each class is proved equal, method by method, to functions on values; the lemmas are about those functions. Clocks,
ids, random draws, the channel's answers and the handlers' outcomes are parameters. `Collections.dfy` and
`Options.dfy` hold dictionaries with insertion order, stable sorting and optional values.

## Where the code does not keep its documentation

- The balancer's header and `docs/02-开发者指南/10-服务注册发现与Feign调用.md:136` say that a heavy host is not served twice in a
  row within a cycle. It is in every cycle of which it has more than half, by more than half a call
  (`HeavyTwiceInEveryCycle`), as with the weights 5 and 1 of the guide (`HeavyHostServedTwice`); of two hosts exactly
  then (`TwoHostsTwiceIff`), unless they are equal and change places in the list (`ReorderedServesTwice`); of more
  hosts also with less (`HalfServedTwice`). No host but a heaviest one ever is (`OnlyHeaviestTwice`). For the first
  two calls `FirstTwoCallsIff` gives the exact condition for any fleet.
- The queue promises that messages whose handlers fail are not dropped silently, and that holds. Two other steps do
  drop a message silently: stopping while one is handled, and delaying one under an id that is still delayed; nothing
  else does (`NothingLostIff`, `AccountedIff`).
- A message whose handler is cancelled keeps its idempotency key and is not handled again before the retention is over
  (`CancelledBlocksIff`); a failing run that outlived its retention frees the key of the run after it
  (`FailuresFreeOwnIff`), so that two runs can succeed within one retention (`LateFailureDoublesSuccess`).
- `exists` of the token store can say yes to a credential that nobody saved, when a user id holds a colon and another
  user's id and jti join to the same key; and a credential that moved to a second device is ended by a save on the
  first (`AnswersRightIff`). In the first case the jti sets and the state map disagree as well (`SetsAgreeIff`).
- The cache's third of the remote time is exceeded when the jitter, added after the clamp, reaches past it
  (`LimitExceededIff`), as it does by default (`DefaultsExceed`). A read of an expired key can save another one from
  eviction, exactly if an older entry is still alive (`ReadNoticedIff`).
- The check for a repeated refund number looks it up among order numbers (`DuplicateRefundCaughtIff`), so the same
  refund can be applied for twice (`SameRefundTwiceIff`). After a partial refund any number of others is accepted
  without being recorded, so that accepted refunds exceed what was paid (`RefundsExceedIff`).
  `payment_channel_template.py:116` says that a refund is booked when its callback arrives, but the pending record of
  the application is never replaced (`AppliedRefundNeverBooked`).
- A refund's callback carries the refund amount (`payment_callback.py:23`) but is compared with the amount of the
  whole order, so that of a partial refund is always refused (`PartialRefundRefused`, `RefundCallbackIff`).
- Reversals are promised once per flow record (`payment_reversal.py:10`) but stored once per order, so reversing a
  second record of an order yields the reversal of the first (`ReversalNamesOriginalIff`,
  `SecondReversalYieldsFirst`).
- A refunded order number can be ordered again, and then its payment is not booked (`ReusedNumberSwallowsPayment`);
  checking a callback without handling it leaves a paid order without a pay record, and closing a refunded order in
  the close task does the opposite (`StepMatchesIff`). `close_order` alone leaves the local order payable
  (`LatePaymentRefusedIff`).
- Of two overlapping matches the second is left out whole, and its tail stays readable (`TailStaysReadable`) unless
  another match begins where the first one ends; `AllHiddenIff` says exactly for which matches everything detected is
  hidden.

## Model

| member | source | states |
|---|---|---|
| `WeightedRoundRobin.DeviationBound` | src/web_infra/capabilities/loadbalance/weighted_round_robin_balancer.py:34-58 | after any number of calls on an unchanged fleet the current weights sum to zero, each equals calls times share minus picks times total, and each is above minus the total and, with N hosts, below N - 1 totals |
| `WeightedRoundRobin.ExactFairness` | src/web_infra/capabilities/loadbalance/weighted_round_robin_balancer.py:41-58 | after m whole cycles every host has been served exactly m times its weight and all weights are back to zero, whatever the list order and the ties |
| `WeightedRoundRobin.StepStaysInBounds` | src/web_infra/capabilities/loadbalance/weighted_round_robin_balancer.py:50-57 | one call keeps the weights summing to zero and all above minus the total, because the largest raised weight can pay the total |
| `WeightedRoundRobin.StepsKeepBalance` | src/web_infra/capabilities/loadbalance/weighted_round_robin_balancer.py:50-57 | along any run from zero weights the weights tell exactly how far each host is from its share |
| `WeightedRoundRobin.BalancedAtEnd` | src/web_infra/capabilities/loadbalance/weighted_round_robin_balancer.py:34-58 | the same for runs of the whole balancer, whose first call may reset it and whose lists may come in any order |
| `WeightedRoundRobin.ReorderedIsSameFleet` | src/web_infra/capabilities/loadbalance/weighted_round_robin_balancer.py:34-39 | a reordered list with other inactive instances is the same fleet: it does not reset the weights and gives the same shares |
| `RoundRobinStretches.ChangeForgets` | src/web_infra/capabilities/loadbalance/weighted_round_robin_balancer.py:34-39 | a call that finds other hosts or weights than the last one answers as a new balancer does |
| `RoundRobinStretches.StretchIsFleetRun` | src/web_infra/capabilities/loadbalance/weighted_round_robin_balancer.py:34-58 | in any run of a balancer whose fleets change, each stretch of calls on one fleet is a run from a reset |
| `RoundRobinStretches.StretchDeviation` | src/web_infra/capabilities/loadbalance/weighted_round_robin_balancer.py:34-58 | after each such stretch the weights tell how far each host is from its share of this stretch alone, within the bounds of one fleet |
| `RoundRobinStretches.StretchFairness` | src/web_infra/capabilities/loadbalance/weighted_round_robin_balancer.py:34-58 | over whole cycles of each such stretch every host is served exactly its parts and its weight is zero again |
| `WeightedRoundRobin.ActivesAre` | src/web_infra/capabilities/loadbalance/weighted_round_robin_balancer.py:43-44 | the active instances are those with a positive weight, each as often as in the list and in list order |
| `RoundRobinRepeats.MostOwedIsServed` | src/web_infra/capabilities/loadbalance/weighted_round_robin_balancer.py:50-57 | every call serves a host that is owed most: call number times its parts less a cycle for each time it was served |
| `RoundRobinRepeats.HeavyTwiceInEveryCycle` | src/web_infra/capabilities/loadbalance/weighted_round_robin_balancer.py:6-8 | in any fleet a host with parts p of a cycle of P calls is served twice in a row inside every cycle if 2p > P + 1, against the promise of the header |
| `RoundRobinRepeats.TwoHostsTwiceIff` | src/web_infra/capabilities/loadbalance/weighted_round_robin_balancer.py:6-8 | of two hosts exactly then, in any list order; only for equal parts of more than one each the list is taken to keep its order |
| `RoundRobinRepeats.ReorderedServesTwice` | src/web_infra/capabilities/loadbalance/weighted_round_robin_balancer.py:54-57 | why: two equal hosts in a list that changes its order, of which one is served twice in a row inside a cycle |
| `RoundRobinRepeats.FirstTwoCallsIff` | src/web_infra/capabilities/loadbalance/weighted_round_robin_balancer.py:41-58 | after a reset the first two calls serve one host exactly if twice its weight less the total is at least twice that of every other host, and more than that of the hosts listed before it |
| `RoundRobinRepeats.HalfServedTwice` | src/web_infra/capabilities/loadbalance/weighted_round_robin_balancer.py:6-8 | with more than two hosts that bound is not needed: of weights 1, 2, 2 and 5 the heaviest is served twice in a row within the first cycle, in any list order |
| `RoundRobinRepeats.HeavyHostServedTwice` | src/web_infra/capabilities/loadbalance/weighted_round_robin_balancer.py:6-8 | the weights 5 and 1 of the guide: the first two calls both serve the heavy host |
| `RoundRobinRepeats.OnlyHeaviestTwice` | src/web_infra/capabilities/loadbalance/weighted_round_robin_balancer.py:6-8 | only a heaviest host is ever served twice in a row, in any run from a reset and any list order |
| `RoundRobinRepeats.TwiceIsAboveAverage` | src/web_infra/capabilities/loadbalance/weighted_round_robin_balancer.py:6-8 | such a host has more than the average share, unless all shares are equal |
| `WeightedRoundRobin.WeightedRoundRobinBalancer.Choose` | src/web_infra/capabilities/loadbalance/weighted_round_robin_balancer.py:41-58 | a call fails, changing nothing, exactly when no weight is positive; otherwise it serves the first active instance with the largest raised weight and charges it the total |
| `WeightedRoundRobin.WeightedRoundRobinBalancer.ChooseActive` | src/web_infra/capabilities/loadbalance/weighted_round_robin_balancer.py:47-58 | on the active list the two loops and the subtraction make one served call |
| `WeightedRoundRobin.WeightedRoundRobinBalancer.ResetIfChanged` | src/web_infra/capabilities/loadbalance/weighted_round_robin_balancer.py:34-39 | all weights are zero after a call that finds another set of hosts and weights than the remembered one, and as before otherwise; then every listed host has a weight |
| `WeightedRoundRobin.WeightedRoundRobinBalancer.Accumulate` | src/web_infra/capabilities/loadbalance/weighted_round_robin_balancer.py:51-53 | the loop raises each host by all the weight configured for it, also when a host is listed twice |
| `WeightedRoundRobin.FirstLargest` | src/web_infra/capabilities/loadbalance/weighted_round_robin_balancer.py:54-55 | the instance found is no smaller than any other and larger than all before it |
| `WeightedRoundRobin.Filtered` | src/web_infra/capabilities/loadbalance/weighted_round_robin_balancer.py:43-44 | the instances with a positive weight are kept in order |
| `DependencyClosure.TopologicalClosure` | src/web_infra/core/extension/extension_registry.py:109-148 | the chain is duplicate-free and is exactly the registered names reachable from the roots, unknown is exactly the unregistered reachable ones, cycles are reported exactly when one is reachable, each a genuine simple closed path, and without cycles every requirement precedes its dependant |
| `DependencyClosure.SearchIsClosure` | src/web_infra/core/extension/extension_registry.py:124-148 | a finished search with an empty stack has that result |
| `DependencyClosure.OrderedHasNoCycle` | src/web_infra/core/extension/extension_registry.py:134-138 | no cycle is missed: when none was reported no closed path is reachable |
| `DependencyClosure.StackClosesCycle` | src/web_infra/core/extension/extension_registry.py:134-137 | the slice of the recursion stack from a repeated name on is a simple closed path of requires edges, reachable from the roots |
| `DependencyClosure.Finish` | src/web_infra/core/extension/extension_registry.py:142-144 | leaving a name whose requirements are all accounted for keeps the chain complete and ordered |
| `DependencyClosure.ClosuresAgree` | src/web_infra/core/capability/capability_registry.py:111-148 | the order in which the set of names is walked does not show: members, unknown names and the verdict are the same |
| `DependencyClosure.TargetIsLast` | src/web_infra/core/extension/extension_registry.py:68-84 | the one requested name comes last in its chain |
| `DependencyOrders.LoadOrderRules` | src/web_infra/core/extension/extension_registry.py:109-148 | an order in which each name is registered and comes after all it requires exists only if everything reachable is registered and no cycle is reachable |
| `DependencyOrders.ClosureIsLoadOrder` | src/web_infra/core/extension/extension_registry.py:139-144 | the chain of a closure without unknown names and cycles is such an order |
| `DependencyOrders.MemberIsRequired` | src/web_infra/core/extension/extension_registry.py:139-144 | it holds no name in vain: all but the roots are required by a later one |
| `DependencyClosure.DepthFirstSearch.Visit` | src/web_infra/core/extension/extension_registry.py:127-144 | the recursive search keeps the invariant, gives the stack back, leaves the name accounted for, and ends because fewer names are neither finished nor on the stack |
| `DependencyClosure.DepthFirstSearch.Expand` | src/web_infra/core/extension/extension_registry.py:139-144 | pushing a name, visiting its requirements and popping it leaves it finished |
| `DependencyClosure.DepthFirstSearch.CloseCycle` | src/web_infra/core/extension/extension_registry.py:134-138 | a cycle is recorded once, and one is recorded |
| `ExtensionRegistries.ExtensionRegistry.Register` | src/web_infra/core/extension/extension_registry.py:31-49 | which of the three refusals is given, and that a refused contract changes nothing |
| `ExtensionRegistries.ExtensionRegistry.Unregister` | src/web_infra/core/extension/extension_registry.py:61-65 | the name is gone and all others stay |
| `ExtensionRegistries.ExtensionRegistry.Resolve` | src/web_infra/core/extension/extension_registry.py:67-84 | succeeds exactly if some order exists in which the target and all that the registered contracts require can be loaded; then the chain is one, with the registered contracts, nothing in vain and the target last; otherwise exactly the unregistered needed names are given, or circles among what is needed |
| `ExtensionRegistries.ExtensionRegistry.Validate` | src/web_infra/core/extension/extension_registry.py:86-103 | ok exactly if all that the contracts of the enabled names require can be loaded in some order; the closure is exactly what they need and is registered, unknown exactly what they need and is not |
| `CapabilityRegistries.CapabilityRegistry.Register` | src/web_infra/core/capability/capability_registry.py:28-40 | a same-named contract is replaced; an empty name or a self-requirement changes nothing |
| `CapabilityRegistries.CapabilityRegistry.Resolve` | src/web_infra/core/capability/capability_registry.py:56-74 | succeeds exactly if the target and all that the registered contracts require can be loaded in some order; the chain is one, each contract but the last is required by a later one, and each module of the chain occurs once |
| `CapabilityRegistries.CapabilityRegistry.CollectModules` | src/web_infra/core/capability/capability_registry.py:69-73 | the modules of the chain without repetitions, in the order of first occurrence |
| `CapabilityRegistries.OneMoreModule` | src/web_infra/core/capability/capability_registry.py:71-73 | skipping a known module and appending a new one keeps the order of first occurrence |
| `ExtensionLifecycle.Application.SetupExtensions` | src/web_infra/core/application.py:291-321 | an empty list sets nothing up; otherwise set-up succeeds exactly if all that the contracts of the enabled plugins require can be loaded in some order, the chain is one and holds nothing in vain, and every plugin of it and no other has an instance, built exactly if its contract builds one |
| `ExtensionLifecycle.Application.RunStartups` | src/web_infra/core/application.py:631-642 | startup hooks run once each, exactly those present, in chain order |
| `ExtensionLifecycle.Application.RunShutdowns` | src/web_infra/core/application.py:644-655 | shutdown hooks run once each, exactly those present, against chain order |
| `ExtensionLifecycle.RequirementsStartFirstStopLast` | src/web_infra/core/application.py:631-655 | each startup runs after, and each shutdown before, those of all that the plugin's contract required when it was set up |
| `SearchIndex.InsertKeepsIndex` | src/web_infra/capabilities/search/in_memory_search_engine.py:211-226 | after filing a new document every posting list again names exactly the documents with the token, in write order and with their counts, with no empty list, and lengths and order fit |
| `SearchIndex.DeleteKeepsIndex` | src/web_infra/capabilities/search/in_memory_search_engine.py:233-254 | the same after deleting, and exactly that document is gone |
| `SearchIndex.PostedAt` | src/web_infra/capabilities/search/in_memory_search_engine.py:224-226 | counting a document changes exactly the posting lists of its tokens, to its number of occurrences |
| `SearchIndex.OccurrencesAre` | src/web_infra/capabilities/search/in_memory_search_engine.py:223-226 | the counts of the postings are those of the multiset of tokens |
| `SearchIndex.UnpostedAt` | src/web_infra/capabilities/search/in_memory_search_engine.py:242-248 | taking a document out changes exactly the posting lists of its tokens and leaves no empty list |
| `SearchIndex.DeletingOldest` | src/web_infra/capabilities/search/in_memory_search_engine.py:227-231 | evicting n documents removes exactly the n written first and keeps the index right |
| `SearchIndex.IndexedIs` | src/web_infra/capabilities/search/in_memory_search_engine.py:123-124 | a write leaves the new version as the newest document, keeps the newest others within the limit and drops the oldest |
| `SearchRanking.TokenKeepsScores` | src/web_infra/capabilities/search/in_memory_search_engine.py:182-194 | walking one posting list adds to the accumulated scores exactly what scanning the documents for that token adds |
| `SearchRanking.PostingsAreHolders` | src/web_infra/capabilities/search/in_memory_search_engine.py:183-186 | a posting list is as long as there are documents with the token, and names them once each |
| `SearchRanking.HitsMatch` | src/web_infra/capabilities/search/in_memory_search_engine.py:181-195 | the hits are exactly the documents that share a token with the query, once each |
| `SearchRanking.RankingIs` | src/web_infra/capabilities/search/in_memory_search_engine.py:182-195 | each score equals the formula evaluated on the documents and is positive, and the ranking descends |
| `SearchRanking.EqualScoresKeepHitOrder` | src/web_infra/capabilities/search/in_memory_search_engine.py:195 | equal scores stay in the order of first hit |
| `SearchRanking.PagesMakeUpRanking` | src/web_infra/capabilities/search/in_memory_search_engine.py:196 | consecutive pages concatenate to a prefix of the ranking |
| `SearchRanking.AllPagesMakeUpRanking` | src/web_infra/capabilities/search/in_memory_search_engine.py:196 | enough pages make up the whole ranking, nothing missing and nothing twice |
| `SearchFormula.Bm25IsPositive` | src/web_infra/capabilities/search/in_memory_search_engine.py:186-194 | with a logarithm that is positive above 1 every occurring token has a positive weight |
| `SearchFormula.RarerWeighsMore` | src/web_infra/capabilities/search/in_memory_search_engine.py:186 | the fewer documents hold a token, the more it weighs |
| `SearchFormula.OftenWeighsMore` | src/web_infra/capabilities/search/in_memory_search_engine.py:189-194 | the more often a document holds the token, the more it weighs, but less than 2.2 times its logarithm |
| `SearchFormula.LongerWeighsLess` | src/web_infra/capabilities/search/in_memory_search_engine.py:189-194 | the longer the document, the less the token weighs |
| `SearchFormula.Bm25AtAverage` | src/web_infra/capabilities/search/in_memory_search_engine.py:186-194 | once in a document of average length a token weighs the logarithm of (n + 1) / (df + 0.5) |
| `SearchFormula.Bm25WithoutAverage` | src/web_infra/capabilities/search/in_memory_search_engine.py:189-194 | without an average length the logarithm is multiplied by the count |
| `SearchFormula.PlainScore` | src/web_infra/capabilities/search/in_memory_search_engine.py:176-196 | where all documents are equally long, a document that holds the only query token once has just that logarithm for its score |
| `SearchFormula.RarerTokenFirst` | src/web_infra/capabilities/search/in_memory_search_engine.py:176-197 | of two equally long documents that each hold one query token, equally often, the one with the rarer token comes first |
| `SearchFormula.MoreOftenFirst` | src/web_infra/capabilities/search/in_memory_search_engine.py:176-197 | of two equally long documents with the same query token the one that holds it more often comes first |
| `SearchFormula.ShorterFirst` | src/web_infra/capabilities/search/in_memory_search_engine.py:176-197 | of two documents that hold the same query token equally often the shorter one comes first |
| `SearchEngine.InMemorySearchEngine.Search` | src/web_infra/capabilities/search/in_memory_search_engine.py:165-205 | the page accumulated through the index is that page of the ranking by scanning the documents; an invalid namespace is refused |
| `SearchEngine.Accumulate` | src/web_infra/capabilities/search/in_memory_search_engine.py:181-194 | the two loops build the scores of the scan |
| `SearchEngine.AccumulateToken` | src/web_infra/capabilities/search/in_memory_search_engine.py:183-194 | the loop over one posting list adds the token's weights |
| `SearchEngine.Average` | src/web_infra/capabilities/search/in_memory_search_engine.py:179-180 | the stored lengths average to the average token count |
| `SearchEngine.NothingToFind` | src/web_infra/capabilities/search/in_memory_search_engine.py:170-178 | the two early empty answers agree with the ranking |
| `SearchEngine.InMemorySearchEngine.IndexDocument` | src/web_infra/capabilities/search/in_memory_search_engine.py:110-124 | a valid write replaces the document in its namespace only, keeps the index agreeing with the documents everywhere, and evicts over the limit |
| `SearchEngine.InMemorySearchEngine.BulkIndex` | src/web_infra/capabilities/search/in_memory_search_engine.py:126-145 | the items with an id are written in order, the others skipped, no other namespace touched |
| `SearchEngine.BulkKeepsOthers` | src/web_infra/capabilities/search/in_memory_search_engine.py:138-146 | a bulk write without a limit leaves every document whose id is in no item as it is; an item without an id, or with an empty one, writes nothing |
| `SearchEngine.BulkWritesLast` | src/web_infra/capabilities/search/in_memory_search_engine.py:138-146 | after it a document is the last item with its id |
| `SearchEngine.InMemorySearchEngine.DeleteDocument` | src/web_infra/capabilities/search/in_memory_search_engine.py:147-159 | deletes the one document, silently when absent, and keeps the index right |
| `SearchEngine.InMemorySearchEngine.DeleteIndex` | src/web_infra/capabilities/search/in_memory_search_engine.py:95-104 | drops all four structures of the namespace and no other |
| `SearchEngine.InMemorySearchEngine.InsertDoc` | src/web_infra/capabilities/search/in_memory_search_engine.py:211-231 | the in-place insert with eviction is the insert on values, also for an id that is already stored |
| `SearchEngine.InMemorySearchEngine.DeleteDoc` | src/web_infra/capabilities/search/in_memory_search_engine.py:233-254 | the in-place delete is the delete on values |
| `QueueConservation.AlwaysQueueOk` | src/web_infra/capabilities/mq/in_memory_message_queue.py:85-212 | in every reachable state, for any interleaving, each accepted copy is counted in exactly one place and cancelled ids belong to delayed messages |
| `QueueConservation.StepConserves` | src/web_infra/capabilities/mq/in_memory_message_queue.py:145-212 | each single step moves a message without losing or doubling it |
| `QueueModel.ConsumedIff` | src/web_infra/capabilities/mq/in_memory_message_queue.py:152-165 | a message counts as consumed exactly if none of its handlers failed |
| `QueueModel.LastFailureDecides` | src/web_infra/capabilities/mq/in_memory_message_queue.py:155-171 | otherwise the handler that failed last decides between one more try, while the limit allows, and a letter |
| `QueueConservation.ExactlyOnePlace` | src/web_infra/capabilities/mq/in_memory_message_queue.py:85-212 | a message accepted once is in exactly one of delayed, queued, being dispatched, waiting, consumed, dead-lettered, cancelled or lost |
| `QueueConservation.NothingLostIff` | src/web_infra/capabilities/mq/in_memory_message_queue.py:91-143 | a run loses no message exactly when it never delays one under an id still delayed and never stops while one is being handled |
| `QueueConservation.LosesIff` | src/web_infra/capabilities/mq/in_memory_message_queue.py:97-99 | the same for one step |
| `QueueConservation.AccountedIff` | src/web_infra/capabilities/mq/in_memory_message_queue.py:91-143 | the same without a record of losses: every accepted copy is on its way, consumed, dead-lettered or cancelled exactly if no such step was taken |
| `QueueConservation.StopLoses` | src/web_infra/capabilities/mq/in_memory_message_queue.py:139-143 | publish, start, take and stop: the message is gone |
| `QueueConservation.DelayingAgainLoses` | src/web_infra/capabilities/mq/in_memory_message_queue.py:97-99 | two messages delayed under one id: the first is gone |
| `QueueOrder.TakenAsEnqueued` | src/web_infra/capabilities/mq/in_memory_message_queue.py:145-153 | in every run the messages taken so far, followed by the queue, are the messages enqueued, in order |
| `QueueOrder.PartitionInOrder` | src/web_infra/capabilities/mq/in_memory_message_queue.py:148-151 | within each partition, however partitions are assigned, messages are taken in the order in which they were enqueued |
| `QueueOrder.HandledAsTakenIff` | src/web_infra/capabilities/mq/in_memory_message_queue.py:152-165 | the messages taken are those handled or in hand, in that order, exactly if the worker was never stopped while handling one |
| `QueueRetries.RetryArithmetic` | src/web_infra/capabilities/mq/in_memory_message_queue.py:173-191 | for a message that always fails retryably, at every moment: one counted retry per attempt and delays summing to backoff times 2^attempts - 1, up to the limit |
| `QueueRetries.ExhaustedRetries` | src/web_infra/capabilities/mq/in_memory_message_queue.py:173-186 | once it is nowhere on its way it was tried limit + 1 times, waited backoff times (2^limit - 1) and got one dead letter telling the limit |
| `QueueCancellation.CancelledIsNeverDelivered` | src/web_infra/capabilities/mq/in_memory_message_queue.py:102-128 | after a cancel that answered yes no message with that id is ever enqueued or handled, provided that ids are unique: that nothing else is accepted under the id |
| `QueueCancellation.StepKeepsBarred` | src/web_infra/capabilities/mq/in_memory_message_queue.py:102-128 | no single step brings a cancelled message back |
| `InMemoryMessageQueues.InMemoryMessageQueue.Publish` | src/web_infra/capabilities/mq/in_memory_message_queue.py:85-89 | the message is appended to the queue and its id returned |
| `InMemoryMessageQueues.InMemoryMessageQueue.SendDelay` | src/web_infra/capabilities/mq/in_memory_message_queue.py:91-100 | the message is filed under its id and a timer started; a message filed there before is overwritten |
| `InMemoryMessageQueues.InMemoryMessageQueue.DelayedDispatch` | src/web_infra/capabilities/mq/in_memory_message_queue.py:102-117 | a due message is enqueued unless cancelled; a cancelled one is dropped with its mark |
| `InMemoryMessageQueues.InMemoryMessageQueue.CancelDelayed` | src/web_infra/capabilities/mq/in_memory_message_queue.py:119-128 | yes exactly when the message is still delayed, which marks it |
| `InMemoryMessageQueues.InMemoryMessageQueue.StopLoop` | src/web_infra/capabilities/mq/in_memory_message_queue.py:139-143 | stopping drops the message being handled |
| `InMemoryMessageQueues.InMemoryMessageQueue.TakeNext` | src/web_infra/capabilities/mq/in_memory_message_queue.py:152-153 | the oldest queued message is taken |
| `InMemoryMessageQueues.InMemoryMessageQueue.FinishDispatch` | src/web_infra/capabilities/mq/in_memory_message_queue.py:154-171 | the last failure of the handlers decides between consumed, dead letter and retry |
| `InMemoryMessageQueues.InMemoryMessageQueue.RetryOrDlq` | src/web_infra/capabilities/mq/in_memory_message_queue.py:173-186 | the counted retry, its doubled delay or, over the limit, the dead letter |
| `InMemoryMessageQueues.InMemoryMessageQueue.RequeueAfter` | src/web_infra/capabilities/mq/in_memory_message_queue.py:188-191 | the retried message goes to the end of the queue |
| `InMemoryMessageQueues.InMemoryMessageQueue.SendToDlq` | src/web_infra/capabilities/mq/in_memory_message_queue.py:194-207 | the letter goes to the dead letter topic with the original's tag, id, topic, business id (or else its id), body, retry count and error |
| `IdempotencyModel.NeverOverlapIff` | src/web_infra/capabilities/mq/idempotent_consumer.py:42-61 | runs for a key never overlap exactly when no delivery finds a run for that key past the retention, whatever happens to other keys |
| `IdempotencyModel.SuccessesAreApart` | src/web_infra/capabilities/mq/idempotent_consumer.py:50-61 | two successful runs for a key took it at least the retention apart, even where runs overlap, unless a failing run freed the hold that another one took |
| `IdempotencyModel.SuccessesInOrder` | src/web_infra/capabilities/mq/idempotent_consumer.py:50-61 | where the runs for a key do not overlap the successful ones also end in the order in which they took it |
| `IdempotencyModel.LateFailureDoublesSuccess` | src/web_infra/capabilities/mq/idempotent_consumer.py:56-60 | a history, for any retention, in which a late failing run frees the next hold and two runs succeed that took the key at the same time |
| `IdempotencyModel.LateDeliveryOverlaps` | src/web_infra/capabilities/mq/in_memory_message_idempotency_store.py:32-37 | a delivery after the retention of a run still going starts a second run for the key |
| `IdempotencyModel.FailureFreesKey` | src/web_infra/capabilities/mq/idempotent_consumer.py:56-60 | after a failed run the next delivery of its key is accepted at once, and no other key is freed |
| `IdempotencyModel.FailuresFreeOwnIff` | src/web_infra/capabilities/mq/idempotent_consumer.py:56-60 | at no time of a history could a failing run free another run's hold of the key exactly if no delivery finds a run for the key past the retention |
| `IdempotencyModel.CancelledBlocksIff` | src/web_infra/capabilities/mq/idempotent_consumer.py:56-61 | the key of a cancelled handler, which is not caught as a failure, refuses redelivery exactly until the retention is over |
| `IdempotencyModel.SameKeyIff` | src/web_infra/capabilities/mq/idempotent_consumer.py:67-77 | two messages share a key exactly when they name the same business action, or name none and are the same message |
| `IdempotentConsumers.InMemoryMessageIdempotencyStore.TryConsume` | src/web_infra/capabilities/mq/in_memory_message_idempotency_store.py:28-37 | taken exactly when no unexpired entry is there; expired keys are purged and the others stay |
| `IdempotentConsumers.InMemoryMessageIdempotencyStore.Release` | src/web_infra/capabilities/mq/in_memory_message_idempotency_store.py:39-42 | the key is gone and all others stay |
| `IdempotentConsumers.IdempotentConsumer.Begin` | src/web_infra/capabilities/mq/idempotent_consumer.py:50-55 | the handler runs exactly when the key was free, and then holds it for the retention |
| `IdempotentConsumers.IdempotentConsumer.Complete` | src/web_infra/capabilities/mq/idempotent_consumer.py:56-61 | success and cancellation keep the key, failure gives it back |
| `TokenStoreRefinement.AnswersRightIff` | src/web_infra/capabilities/security/in_memory_jwt_token_store.py:32-71 | all histories of a scope of users, jtis and devices are answered as the history says if and only if no key of a saved credential begins with another user's id and a colon, and no credential moves between devices that others use |
| `TokenStoreRefinement.ApartAnswersRight` | src/web_infra/capabilities/security/in_memory_jwt_token_store.py:40-114 | under those conditions every look-up, with all lazy clean-up, says exactly: saved, not revoked, not replaced on its device since, not run out |
| `TokenStoreRefinement.SharedKeyAnswersWrong` | src/web_infra/capabilities/security/in_memory_jwt_token_store.py:32-34 | otherwise a look-up of a credential nobody saved succeeds |
| `TokenStoreRefinement.MovedAnswersWrong` | src/web_infra/capabilities/security/in_memory_jwt_token_store.py:47-53 | a credential moved to a second device is ended by a save on the first |
| `TokenStoreRefinement.GoodIsCurrent` | src/web_infra/capabilities/security/in_memory_jwt_token_store.py:40-57 | a credential that is good by the history is the current one of the very device it was saved from |
| `TokenStoreDevices.SetsAgreeIff` | src/web_infra/capabilities/security/in_memory_jwt_token_store.py:40-114 | the jti sets hold exactly what the state map holds, at every moment of all histories of a scope, if and only if no saved credential's key begins with another user's id and a colon |
| `TokenStoreDevices.RecordedIsCurrent` | src/web_infra/capabilities/security/in_memory_jwt_token_store.py:40-114 | after any history at all each recorded non-empty jti is the device-map value of the device that it was last saved from |
| `TokenStoreDevices.OneLivePerDevice` | src/web_infra/capabilities/security/in_memory_jwt_token_store.py:40-79 | two different non-empty jtis of a user that a look-up accepts are current on different devices, each on the one it was last saved from |
| `TokenStoreDevices.NoMoreThanDevices` | src/web_infra/capabilities/security/in_memory_jwt_token_store.py:40-57 | after any history at all a user has no more recorded non-empty jtis than devices on record |
| `TokenStoreRefinement.ValidIff` | src/web_infra/capabilities/security/in_memory_jwt_token_store.py:59-71 | the last save not ended since is the one that decides validity |
| `TokenStoreModel.PruningIsInvisible` | src/web_infra/capabilities/security/in_memory_jwt_token_store.py:90-105 | a look-up after the clean-up, at once or later, is answered as without it; that later operations do not show it either is part of ApartAnswersRight |
| `TokenStoreModel.PrunedDevicesIff` | src/web_infra/capabilities/security/in_memory_jwt_token_store.py:90-107 | clean-up drops exactly the user's device entries that name an unknown or expired credential, if the user has a good one left, and no other entry |
| `InMemoryJwtTokenStores.InMemoryJwtTokenStore.SaveCredential` | src/web_infra/capabilities/security/in_memory_jwt_token_store.py:40-57 | after clean-up the three maps change as in the model: the jti is stored under user and jti with its expiry, recorded for the user, and current on the device, with empty text for an absent client or device; the jti that the device held before is returned |
| `InMemoryJwtTokenStores.InMemoryJwtTokenStore.Exists` | src/web_infra/capabilities/security/in_memory_jwt_token_store.py:59-71 | true exactly while the stored expiry is ahead; an expired entry is removed from both maps |
| `InMemoryJwtTokenStores.InMemoryJwtTokenStore.Revoke` | src/web_infra/capabilities/security/in_memory_jwt_token_store.py:73-79 | true exactly when there was an entry, which is removed from both maps |
| `InMemoryJwtTokenStores.InMemoryJwtTokenStore.PruneUser` | src/web_infra/capabilities/security/in_memory_jwt_token_store.py:90-105 | the loops drop exactly the expired credentials of the user and the device entries left without one |
| `InMemoryJwtTokenStores.InMemoryJwtTokenStore.DiscardUserJti` | src/web_infra/capabilities/security/in_memory_jwt_token_store.py:107-114 | the jti leaves the set and an empty set is not kept |
| `CacheModel.CacheRefinesLog` | src/web_infra/capabilities/cache/memory_cache_backend.py:50-111 | a hit is the last written, undeleted, unexpired value; the size never exceeds the capacity; and such a value is found if fewer than capacity other keys were written since |
| `CacheModel.MaxOthersEvict` | src/web_infra/capabilities/cache/memory_cache_backend.py:105-110 | the retention bound is tight: after as many different other keys as the capacity the entry is gone |
| `CacheReads.ReadNoticedIff` | src/web_infra/capabilities/cache/memory_cache_backend.py:50-66 | in every reachable store some later look-up can tell that a key was read exactly if the key is stored and has expired while an entry written before it has not |
| `CacheReads.SurvivesIff` | src/web_infra/capabilities/cache/memory_cache_backend.py:105-110 | a stored key survives exactly as many new keys as there is room for, and then as many as there are older keys |
| `CacheModel.ReadSavesAnotherKey` | src/web_infra/capabilities/cache/memory_cache_backend.py:57-60 | such a read in a cache of two entries: an expired key is read and another one is spared from eviction |
| `CacheTtl.LimitExceededIff` | src/web_infra/capabilities/cache/memory_cache_backend.py:80-104 | the documented third of the remote time is exceeded by some draw exactly when the jitter reaches past what the clamped time leaves |
| `CacheTtl.LimitPlusJitter` | src/web_infra/capabilities/cache/memory_cache_backend.py:80-104 | it is never exceeded by as much as the jitter |
| `CacheTtl.ClampedIs` | src/web_infra/capabilities/cache/memory_cache_backend.py:80-96 | before the jitter the time is the wanted one, cut to the share of the remote time if there is one |
| `CacheTtl.DefaultsExceed` | src/web_infra/capabilities/cache/cache_config.py:16-29 | the default configuration exceeds its limit of 100 seconds for every draw but zero |
| `CacheTtl.EmptyTtl` | src/web_infra/capabilities/cache/memory_cache_backend.py:126 | the mark for missing data lives between 1 and 120 seconds, as long as asked within that |
| `MemoryCaches.MemoryCacheBackend.Get` | src/web_infra/capabilities/cache/memory_cache_backend.py:50-66 | a value exactly when there is an unexpired one; an expired entry is dropped |
| `MemoryCaches.MemoryCacheBackend.Set` | src/web_infra/capabilities/cache/memory_cache_backend.py:68-110 | the entry moves to the end with its clamped and jittered time and the oldest over the capacity go |
| `MemoryCaches.MemoryCacheBackend.SetEmpty` | src/web_infra/capabilities/cache/memory_cache_backend.py:121-131 | the same for the mark for missing data |
| `MemoryCaches.MemoryCacheBackend.Delete` | src/web_infra/capabilities/cache/memory_cache_backend.py:113-115 | the key is gone and the others keep their order |
| `MemoryCaches.MemoryCacheBackend.Exists` | src/web_infra/capabilities/cache/memory_cache_backend.py:118-119 | true exactly for an unexpired value |
| `MemoryCaches.MemoryCacheBackend.IsEmpty` | src/web_infra/capabilities/cache/memory_cache_backend.py:134-144 | true exactly for an unexpired mark |
| `PaymentStateMachine.TerminalStays` | src/web_infra/capabilities/payment/payment_state_machine.py:42-77 | no sequence of events leaves a terminal state, except from paid to refunded |
| `PaymentStateMachine.RepeatableIff` | src/web_infra/capabilities/payment/payment_state_machine.py:44-62 | an accepted event can come again without conflict exactly for the four idempotent ones |
| `PaymentStateMachine.ReachedIff` | src/web_infra/capabilities/payment/payment_state_machine.py:21-62 | from which states and by which events each state is reached, and that none leads back to unpaid, paying or revoked |
| `PaymentLedger.AppendKeepsAgreementIff` | src/web_infra/capabilities/payment/in_memory_payment_flow_store.py:27-49 | appending a known key changes nothing and yields the first record; a new one keeps the two indexes in one-to-one agreement exactly when its id is new |
| `PaymentLedger.AppendKeepsReversedIff` | src/web_infra/capabilities/payment/in_memory_payment_flow_store.py:41-48 | a record is marked reversed exactly when a stored reversal names it, and which appended records keep that |
| `PaymentLedger.FindReversalIff` | src/web_infra/capabilities/payment/in_memory_payment_flow_store.py:61-64 | the search finds a reversal of the record exactly when one is stored |
| `PaymentLedger.RefundedIsOneRecord` | src/web_infra/capabilities/payment/in_memory_payment_flow_store.py:66-75 | the refunds of an order add up to its one refund record |
| `PaymentLedger.ReversalNamesOriginalIff` | src/web_infra/capabilities/payment/payment_reversal.py:49-75 | the record that a reversal yields names this original exactly when one was stored before or its order had no reversal yet |
| `PaymentLedger.SecondReversalYieldsFirst` | src/web_infra/capabilities/payment/payment_reversal.py:49-75 | an order with a payment and a refund: reversing the refund yields the reversal of the payment and leaves the refund unmarked |
| `PaymentLedger.NewReversalMarks` | src/web_infra/capabilities/payment/payment_reversal.py:60-76 | reversing a stored record of an order without reversals marks it |
| `PaymentLedger.ReversingAgain` | src/web_infra/capabilities/payment/payment_reversal.py:49-75 | reversing again changes nothing and yields the same record |
| `PaymentChannel.StepMatchesIff` | src/web_infra/capabilities/payment/payment_channel_template.py:84-201 | a step keeps every paid order with its one pay record of its amount, and no other order with one, exactly when it is not one of three named steps |
| `PaymentChannel.MatchesThroughoutIff` | src/web_infra/capabilities/payment/payment_channel_template.py:84-201 | the same over whole runs with duplicate and late callbacks, closes and reversals in any order |
| `PaymentChannel.OwnBooked` | src/web_infra/capabilities/payment/payment_channel_template.py:175-190 | only the first accepted payment callback of an order books a payment |
| `PaymentChannel.OtherOrdersKeep` | src/web_infra/capabilities/payment/payment_channel_template.py:84-201 | a step leaves every other order's payment and record alone |
| `PaymentChannel.StepShape` | src/web_infra/capabilities/payment/payment_channel_template.py:84-201 | a rejected step changes neither store; an accepted one appends at most its own record and changes at most its own order |
| `PaymentChannel.StepKeepsOk` | src/web_infra/capabilities/payment/payment_channel_template.py:84-201 | every step keeps both stores well-formed |
| `PaymentCallbacks.TakenIff` | src/web_infra/capabilities/payment/payment_channel_template.py:288-311 | a callback is taken exactly if amount and attachment are those of the stored order and it comes in time, refused as a mismatch exactly if they are not, and leaves the order paid or refunded as it says |
| `PaymentCallbacks.TakenIsBooked` | src/web_infra/capabilities/payment/payment_channel_template.py:175-190 | the first callback of its kind for an order leaves a booked record of what it says, a later one leaves none |
| `PaymentCallbacks.ForeignCallbackRefused` | src/web_infra/capabilities/payment/payment_channel_template.py:299-307 | in any run that does not order the number anew, a callback with another amount or a foreign attachment is refused every time and changes nothing |
| `PaymentRuns.SafeRunTotals` | src/web_infra/capabilities/payment/payment_channel_template.py:165-201 | from empty stores, after any safe run, the pay records add up to what the paid orders say |
| `PaymentRuns.TotalsAgree` | src/web_infra/capabilities/payment/payment_channel_template.py:165-201 | there are as many pay records as paid orders and they add up to the same |
| `PaymentRuns.PaidStaysStep` | src/web_infra/capabilities/payment/payment_state_machine.py:21-62 | any step leaves a paid order paid or refunds it; a refunded one stays so exactly unless its number is reused or closed |
| `PaymentRuns.PaidStays` | src/web_infra/capabilities/payment/payment_state_machine.py:21-62 | as long as no step on its own number is unsafe a paid order stays paid or becomes refunded, and a refunded one stays refunded; other orders may take any step |
| `PaymentRuns.PaidThroughoutIff` | src/web_infra/capabilities/payment/payment_state_machine.py:21-62 | over any run a paid order is paid or refunded all the way exactly when none of the steps on its own number is unsafe |
| `PaymentRuns.LedgerGrows` | src/web_infra/capabilities/payment/in_memory_payment_flow_store.py:27-49 | over any run records are only added, keep their place and key, and change only by being marked reversed |
| `PaymentRuns.RedeliveryIsSilent` | src/web_infra/capabilities/payment/payment_channel_template.py:165-201 | an accepted callback delivered again changes neither store, after any run without unsafe steps on its own order |
| `PaymentRuns.RedeliveryChangesIff` | src/web_infra/capabilities/payment/payment_channel_template.py:165-201 | after any run at all an accepted callback delivered again changes the stores exactly if its order waits for it once more with the same terms |
| `PaymentRuns.RecheckIsSilent` | src/web_infra/capabilities/payment/payment_channel_template.py:203-212 | the same for callbacks that are only checked, the entry documented for the in-memory channel |
| `PaymentRuns.CheckedThenHandled` | src/web_infra/capabilities/payment/payment_channel_template.py:203-212 | checking a callback first and then handling it is the same as handling it |
| `PaymentRuns.LatePaymentRefusedIff` | src/web_infra/capabilities/payment/payment_channel_template.py:141-163 | after the close task a payment callback is refused; after closing alone it is still accepted exactly when the order was waiting for payment |
| `PaymentRuns.ReusedNumberSwallowsPayment` | src/web_infra/capabilities/payment/payment_channel_template.py:250-259 | a refunded order number can be ordered again, and the payment of the new order is never booked |
| `PaymentRefunds.RefundBookedIff` | src/web_infra/capabilities/payment/payment_channel_template.py:175-190 | an accepted refund callback leaves a booked record exactly when no refund was recorded before, or a booked one |
| `PaymentRefunds.AppliedRefundNeverBooked` | src/web_infra/capabilities/payment/payment_channel_template.py:112-139 | so a refund applied for through the channel is never booked, in any run after it |
| `PaymentRefunds.DuplicateRefundCaughtIff` | src/web_infra/capabilities/payment/payment_channel_template.py:261-270 | a second application under the same refund number is caught exactly when the number equals the order number |
| `PaymentRefunds.SameRefundTwiceIff` | src/web_infra/capabilities/payment/payment_channel_template.py:261-279 | the same refund is accepted twice exactly when it is at most half of the order, and the second is not recorded |
| `PaymentRefunds.LaterRefundsUnrecorded` | src/web_infra/capabilities/payment/payment_channel_template.py:261-279 | after the first refund of an order no number of further applications is recorded, and each is measured against the first refund only |
| `PaymentRefunds.RefundsExceedIff` | src/web_infra/capabilities/payment/payment_channel_template.py:261-279 | after the first accepted refund of an order the accepted ones can come to more than was paid, and to more than any bound, exactly if the first was partial |
| `PaymentRefunds.PartialRefundRefused` | src/web_infra/capabilities/payment/payment_channel_template.py:299-303 | in any run that does not order the number anew the callback with the amount of a partial refund is refused every time, and changes nothing |
| `PaymentRefunds.RefundCallbackIff` | src/web_infra/capabilities/payment/payment_channel_template.py:299-311 | after any run without unsafe steps on a paid order the callback of its refund is accepted exactly if it is about the whole amount and fits the attachment |
| `PaymentRuns.ReversedThroughout` | src/web_infra/capabilities/payment/payment_reversal.py:49-75 | over any run that reverses stored records, a record is marked reversed exactly when a stored reversal names it |
| `PaymentCloseTask.FoundAre` | src/web_infra/capabilities/payment/in_memory_payment_order_store.py:45-55 | the expired unpaid orders, each once, at most the limit, and all of them when they are fewer |
| `PaymentCloseTask.SweepIs` | src/web_infra/capabilities/payment/payment_close_task.py:38-55 | exactly the found orders for which the channel says unpaid and agrees are closed, with a record each, all others are unchanged, and the count is theirs |
| `PaymentCloseTask.SweepIsSafe` | src/web_infra/capabilities/payment/payment_close_task.py:38-55 | the sweep never touches a paid or not yet due order and keeps the ledger matching the orders |
| `InMemoryPaymentStores.InMemoryPaymentOrderStore.Save` | src/web_infra/capabilities/payment/in_memory_payment_order_store.py:30-34 | the order replaces one of the same number and keeps its place |
| `InMemoryPaymentStores.InMemoryPaymentOrderStore.UpdateStatus` | src/web_infra/capabilities/payment/in_memory_payment_order_store.py:36-43 | only the status of the one order changes; false when there is none |
| `InMemoryPaymentStores.InMemoryPaymentOrderStore.FindExpired` | src/web_infra/capabilities/payment/in_memory_payment_order_store.py:45-55 | the loop finds the orders of the specification in store order |
| `InMemoryPaymentStores.InMemoryPaymentFlowStore.Append` | src/web_infra/capabilities/payment/in_memory_payment_flow_store.py:27-49 | the updates in place of both indexes and of the original are the append on values |
| `InMemoryPaymentStores.InMemoryPaymentFlowStore.FindReversal` | src/web_infra/capabilities/payment/in_memory_payment_flow_store.py:61-64 | found exactly when a reversal naming the record is stored, and then the first one |
| `InMemoryPaymentStores.InMemoryPaymentFlowStore.SumRefunded` | src/web_infra/capabilities/payment/in_memory_payment_flow_store.py:66-75 | the loop yields the amount of the order's one refund record, or zero |
| `InMemoryPaymentStores.ReversalFlow` | src/web_infra/capabilities/payment/payment_reversal.py:29-90 | the checks come in the source's order and a refused reversal changes nothing |
| `PaymentChannels.PaymentChannelTemplate.Prepay` | src/web_infra/capabilities/payment/payment_channel_template.py:84-110 | refused for paid, paying and suspended orders and on a channel failure, else a new unpaid order |
| `PaymentChannels.PaymentChannelTemplate.Refund` | src/web_infra/capabilities/payment/payment_channel_template.py:112-139 | the refusals in order, and a pending record under the order number |
| `PaymentChannels.PaymentChannelTemplate.CheckRefund` | src/web_infra/capabilities/payment/payment_channel_template.py:261-279 | which refusal the look-up by refund number and the amount check give |
| `PaymentChannels.PaymentChannelTemplate.CloseOrder` | src/web_infra/capabilities/payment/payment_channel_template.py:141-163 | closed orders return, paid ones and those the channel calls paid are refused, otherwise a close record and no status change |
| `PaymentChannels.PaymentChannelTemplate.VerifyAndCheck` | src/web_infra/capabilities/payment/payment_channel_template.py:288-311 | accepted exactly if the stored order has the amount, the attachment where both have one, and a state in which the event is due; the refusals come in the source's order |
| `PaymentChannels.PaymentChannelTemplate.HandleCallback` | src/web_infra/capabilities/payment/payment_channel_template.py:165-201 | a callback without a valid signature or failing a check against the stored order changes nothing; otherwise the order is paid or refunded, and the first of its kind leaves a booked record with its amount and numbers |
| `PaymentChannels.PaymentChannelTemplate.PersistFlow` | src/web_infra/capabilities/payment/payment_channel_template.py:313-335 | one append with the given status |
| `PaymentChannels.CloseExpiredOrders` | src/web_infra/capabilities/payment/payment_close_task.py:24-55 | the loop over the expired orders is the sweep and returns its count |
| `PrivacyMasking.ChosenOk` | src/web_infra/capabilities/security/privacy_guard.py:55-62 | the kept spans are in order and disjoint, and each dropped one overlaps a kept one that begins no later |
| `PrivacyMasking.EarlierPatternWins` | src/web_infra/capabilities/security/privacy_guard.py:57-62 | of two matches at one place the one of the later pattern is never kept |
| `PrivacyMasking.SplicedIsScanned` | src/web_infra/capabilities/security/privacy_guard.py:64-73 | splicing match by match writes the same as reading the text character by character |
| `PrivacyMasking.OutsideStays` | src/web_infra/capabilities/security/privacy_guard.py:67-73 | each character outside the kept spans stands in the output, moved by the growth of the masks before it |
| `PrivacyMasking.MaskStands` | src/web_infra/capabilities/security/privacy_guard.py:69-70 | each mask itself, or the text where there is none, stands at the place that the lengths of the masks before it give |
| `PrivacyMasking.LengthIs` | src/web_infra/capabilities/security/privacy_guard.py:64-73 | the output is as much longer than the text as the masks are than the spans |
| `PrivacyMasking.NoMasksNoChange` | src/web_infra/capabilities/security/privacy_guard.py:69-73 | without masks the text is unchanged |
| `PrivacyCoverage.AllHiddenIff` | src/web_infra/capabilities/security/privacy_guard.py:55-73 | for every list of matches: every detected position lies in a masked span exactly if, wherever a kept span ends inside of a match, some match begins |
| `PrivacyCoverage.HiddenWithoutOverlaps` | src/web_infra/capabilities/security/privacy_guard.py:55-73 | in particular if no match begins inside of another one and goes on behind it |
| `PrivacyCoverage.TwoHiddenIff` | src/web_infra/capabilities/security/privacy_guard.py:55-62 | for two matches exactly then, in terms of their positions and list order alone |
| `PrivacyCoverage.OutsideIsReadable` | src/web_infra/capabilities/security/privacy_guard.py:64-73 | a position outside of the kept spans is copied to the output |
| `PrivacyHiding.InsideIsHidden` | src/web_infra/capabilities/security/privacy_guard.py:64-73 | texts that differ only inside of the kept matches have the same output, if these have masks |
| `PrivacyHiding.SameOutputIff` | src/web_infra/capabilities/security/privacy_guard.py:64-73 | two texts of one length have the same output exactly if they agree outside of the kept matches |
| `PrivacyHiding.TellsNothingIff` | src/web_infra/capabilities/security/privacy_guard.py:55-73 | the output depends on nothing that was detected exactly if every detected position lies in a kept match |
| `PrivacyMasking.TailStaysReadable` | src/web_infra/capabilities/security/privacy_guard.py:59-61 | the output for two matches of which the second begins in the first and goes on behind it |
| `PrivacyGuards.DeduplicateMatches` | src/web_infra/capabilities/security/privacy_guard.py:55-62 | the greedy loop over the sorted matches keeps disjoint spans and drops only overlapping ones |
| `PrivacyGuards.ApplyMasks` | src/web_infra/capabilities/security/privacy_guard.py:64-73 | the loop's output is that of the character-by-character reading, with its length |
| `PrivacyGuards.Detect` | src/web_infra/capabilities/security/privacy_guard.py:43-49 | flagged exactly when there is a match; the output is the text with the kept spans masked |

## Left out

- Floating point: weights, times, scores and amounts are exact reals; score rounding to four digits is not modelled.
- Tokenising, highlighting and the patterns that find personal data: tokens and matches are inputs, and a match is
  taken to be non-empty and inside the text. The mask functions for the single categories are inputs too.
- `PrivacyGuard.mask` and its fall-back to the original text when the masked text is empty.
- Documents, orders and records that a caller keeps and changes after handing them over: they are values here. Record
  objects shared by the two indexes of the flow store are modelled, as positions that both indexes refer to.
- How the partition of a message is computed: the order within partitions is proved for any assignment
  (`PartitionInOrder`).
- Which handlers are subscribed to a topic, and how long a delay or a retry sleeps: timers may fire in any order.
- The retry counts that stay behind after a non-retryable failure are in the model, but no bound on them is claimed.
- A failed hook of a plugin, which aborts the start-up, and the options that are passed to hooks.
- `current_jti`, which can name a credential that was revoked.
- A cached value that is itself None, which reads like a missing one.
- The channel without stores (both optional in the source): without them nothing is checked and nothing is written.
- A callback between the two halves of one channel operation: each operation is one step, and so is closing one
  expired order with its status update.
- Sums over several refunds of one order: the ledger keeps one refund record per order and event.
- Records' currency, channel, transaction id, raw message and time stamps, audit records, the callback event of a
  reversal.
- Locks, logging and metrics; the Redis, Elasticsearch, RocketMQ and MySQL variants; plain round-robin balancers; the
  store and executor of asynchronous jobs.
- RoundRobinRepeats.HeavyTwiceInEveryCycle: with three hosts or more no exact condition is given for being served
  twice in a row somewhere in a cycle, only this sufficient one and a necessary one (being a heaviest host, with more
  than the average share); exact are the case of two hosts and that of the first two calls.
- TokenStoreRefinement.GoodIsCurrent: it is about the history's idea of a good credential and so needs both conditions
  of the refinement; what the store itself holds is described without them in `TokenStoreDevices`.
- IdempotentConsumers.IdempotentConsumer.Begin: a handler's run is split into its begin and its end, so that runs can
  interleave; the awaiting in between is not modelled.
