# HyperFleet Sentinel, verified

A Dafny model of the logic between Sentinel's I/O calls, with proofs. Sentinel polls an API for resources,
decides per resource with a chain of CEL expressions whether an event is due, builds a payload from a
compiled definition, publishes it, counts what happened and reports its health.

`dafny verify dfyconfig.toml` checks everything.

| file | what it holds |
|---|---|
| `Cel.dfy` | CEL values, expressions, evaluation with errors; substitution, free variables, monotonicity |
| `Resources.dfy` | resources and conditions as the API returns them |
| `Engine.dfy` | decision config, the staged evaluation, the engine as a class with its mutable condition lookup |
| `Fields.dfy` | what expressions can read of a resource and its conditions |
| `Inlining.dfy` | staged evaluation against writing all params into the result; scoping |
| `DefaultDecision.dfy`, `Due.dfy` | the shipped program, its closed form, and what that means over time |
| `Strings.dfy`, `Selectors.dfy` | sorting and joining; the selector map and the search string printed from it |
| `SearchReader.dfy` | a reader for search strings, the round trip, and shards |
| `Payload.dfy` | validation, compilation and evaluation of payload definitions |
| `Metrics.dfy`, `Sentinel.dfy`, `Runs.dfy` | counters, the poll cycle and event loop as classes, and what every run keeps |
| `Counting.dfy`, `Events.dfy` | outcomes, totals and counters as numbers of resources; where every message comes from and what it says |
| `Startup.dfy` | the config checks and the making of a sentinel from a valid config |
| `Health.dfy` | the health endpoints, alone and over runs |
| `Retry.dfy` | reply classification and the retry schedule |

## Assumptions

- Formatting an instant with `RFC3339Nano` never gives the empty string; formatting then parsing is the
  identity on instants of years 1 to 9999 and does not lead into that range from outside. `30m` and `10s`
  parse to what they say. (`Cel.Faithful`; `Cel.FaithfulIsSatisfiable` shows that it can be met.)
- A difference of timestamps that does not fit 64-bit nanoseconds is a CEL error, as are the other overflows
  (section "Overflow" of the CEL Language Definition). Nothing else is assumed about the range of `now`.
- Go map iteration is an arbitrary enumeration of the keys: each such loop here picks any key not yet seen.
- `sort.Strings` leaves a sorted permutation, of which there is only one (`Strings.SortedIsUnique`).
- The API server applies the conjunction that a search string reads as (`SearchReader.ServerSelects`). Where
  runs of several shards are compared, the labels of a resource ID stay the same (`Runs.LabelsStay`).
- Calls of `Evaluate` are sequential, as in `trigger`. Nothing is claimed for concurrent calls: the lock
  covers the lookup field, not the evaluation.
- The retry driver is the documented one: 10% jitter around `min(500ms * 2^k, 8s)`, and no further attempt
  once the time spent plus the next wait exceeds 30s.
- The finishing time of a poll is later than Go's zero time. No other assumption on the clock is made,
  except where a lemma bounds the gaps between polls.
- UUID generation, JSON encoding, the broker and the fetch are inputs that may fail per resource or per
  cycle; CEL in payloads is a compiler that may refuse a text and a runner that may have no value.

## Where the code differs from its documentation

- `docs/sentinel-operator-guide.md:72` says that a generation mismatch is published immediately. With a
  Reconciled condition whose time is Go's zero time (or more than about 292 years from `now`) one of the two
  clock params fails, which fails the decision. `Due.ImmediateTriggerPublishesIff` gives the exact condition,
  `Due.MismatchHeldBack` an input.
- The comment on `validateMessageDataLeaves` says that every leaf is checked to be a non-empty string. It
  also lets numbers, booleans and unsupported types pass; the last are refused by the builder only.
  `Payload.AcceptedIff` says how the two relate.
- `/readyz` compares the text of each check with `ok`, so a failing check whose error text is `ok` passes
  (`Health.ReadinessChecker.Readyz`, `Health.ReadyOverRuns`).

## Model

| member | source | states |
|---|---|---|
| Cel.SubstitutionLemma | internal/engine/decision.go:141-172 | binding a name to the value of an expression gives every expression the value it has with that expression written in |
| Cel.EvalReadsFreeVars | internal/engine/decision.go:144-152 | evaluation depends on the variables an expression mentions and on nothing else in the activation |
| Cel.MoreBindingsKeepValues | internal/engine/decision.go:144-152 | adding variables to an activation never changes a value, so an unbound variable that did not prevent a value plays no part in it |
| Cel.UnboundIsFreeAndMissing | internal/config/config.go:32-35 | an unbound-variable error names a variable that the expression mentions and the activation lacks |
| Cel.EitherSideDecides | internal/engine/decision.go:172 | a disjunction is true iff an operand is and false iff both are, dually for a conjunction, whatever the other operand is, an error included |
| Cel.LogicalFails | internal/engine/decision.go:172 | both operators give a bool or fail, and a failing left operand is the failure that shows |
| Cel.SwapKeepsValue | internal/engine/decision.go:172 | exchanging the operands of a disjunction or a conjunction never changes a value |
| Cel.ChainMeans | internal/config/config.go:125 | a chain of any length comes to the deciding value iff some operand does, and to the other iff all do |
| Cel.ChainOrderIsFree | internal/config/config.go:125 | order and repetition of the operands of a chain never matter to whether it is true or false |
| Cel.IteMeans | internal/engine/decision.go:148 | a true condition gives the first branch, a false one the second, any other fails; the branch not taken plays no part |
| Cel.GreaterIsTotal | internal/config/config.go:118-122 | `>` is defined exactly between values of one ordered type, and is a strict total order there |
| Cel.DifferencesAreExact | internal/config/config.go:119-122 | a difference of numbers, durations or instants is exact if it fits 64 bits and an error otherwise |
| Cel.ConversionsMean | internal/config/config.go:119-122 | numbers convert by the second to instants and by the nanosecond to durations; a formatted instant converts back iff it is in range |
| Cel.GoingBack | internal/config/config.go:119-122 | subtracting a duration from an instant leads that far back: the difference is the duration, and the order follows its sign |
| Engine.Validate | internal/config/config.go:382-402 | a decision config is accepted iff result, names and expressions are there and names are distinct; otherwise the fault of the first offending param is reported |
| Engine.NewDecisionEngine | internal/engine/decision.go:38-115 | an engine is made iff the config is there, well-formed, and every expression compiles; params keep their authored order; otherwise the first refused expression is reported |
| Engine.BuildConditionsLookup | internal/engine/decision.go:203-216 | the loop builds the lookup of the specification |
| Engine.LookupHoldsLast | internal/engine/decision.go:203-216 | the lookup has exactly the condition types that occur, each with the last condition of its type |
| Engine.LastConditionIsLast | internal/engine/decision.go:203-216 | of several conditions of one type the last in the list counts |
| Engine.AbsentCondition | internal/engine/decision.go:60-72 | the stand-in is used iff no condition has the type |
| Engine.DecisionEngine.Evaluate | internal/engine/decision.go:119-199 | the decision is a function of resource and instant alone; the lookup left behind is the resource's, or the earlier one after an early return |
| Engine.FirstFailureStays | internal/engine/decision.go:154-160 | the first param that fails decides the outcome, whatever follows it |
| Engine.HistoryIndependence | internal/engine/decision.go:60-72 | over any sequence of calls on an engine in any state, early returns included, each decision is that of the call alone |
| Engine.ReasonTells | internal/engine/decision.go:119-199 | no decision has an empty reason, and a decision publishes iff its reason is the one for a match |
| Engine.ReasonIdentifies | internal/engine/decision.go:154-198 | the reason tells a false result, a failed param, a failed result and a result that is not a bool apart |
| Fields.ResourceReads | internal/engine/decision.go:233-241 | each plain field of `resource` reads as that field of the resource |
| Fields.LabelReads | internal/engine/decision.go:243-249 | a label reads as its value; a resource without labels has no `labels` |
| Fields.OwnerReads | internal/engine/decision.go:251-257 | the owner's ID, href and kind read as they are; without an owner each is the same missing key |
| Fields.MetadataReads | internal/engine/decision.go:259-261 | metadata reads entry by entry, and is missing if there is none |
| Fields.NoOtherField | internal/engine/decision.go:233-263 | no other field of a resource can be read |
| Fields.ConditionReads | internal/engine/decision.go:203-230 | each field of `condition(type)` is that of the last condition of the type, or empty without one, and never fails |
| Fields.MissingFieldIsAbsorbed | internal/engine/decision.go:172-198 | for every resource and instant: a disjunction with a field that may be missing, on either side, publishes iff a disjunct that can be evaluated is true |
| Inlining.StagedEqualsInlined | internal/engine/decision.go:141-181 | if all params have values, any expression over them equals the single expression with every param written in, for all names and orders |
| Inlining.ParamsSucceedIff | internal/engine/decision.go:142-162 | all params have values iff each of them, written out in full, has one |
| Inlining.RunHoldsIffInlined | internal/engine/decision.go:141-198 | in any activation a program comes to true iff every written-out param has a value and the written-out result is true |
| Inlining.PublishesIffInlined | internal/engine/decision.go:119-198 | the engine publishes iff every written-out param has a value and the written-out result is true |
| Inlining.FailedParamIsNotAbsorbed | internal/engine/decision.go:154-160 | for every resource and instant: a well-scoped program whose param selects a missing field does not publish, although its written-out disjunction absorbs the failure and is true |
| Inlining.RunNeverUnbound | internal/config/config.go:32-47 | in any activation with `resource` and `now`, params that mention only earlier ones never fail on an unbound variable, nor does the result |
| Inlining.WellScopedNeverUnbound | internal/config/config.go:32-47 | the same of the activation the engine builds |
| Inlining.AppendingKeepsValues | internal/engine/decision.go:142-162 | appended params under new names leave every earlier value as it was |
| Inlining.AppendingKeepsRun | internal/engine/decision.go:141-198 | appended params that have values and are not mentioned leave the value of the program as it was, in any activation |
| Inlining.AppendingKeepsDecision | internal/engine/decision.go:141-198 | so they leave the decision as it was |
| DefaultDecision.RunDefault | internal/config/config.go:111-127 | the seven params and the result, run through the interpreter, come to the four-way verdict; the first clock param to fail fails it |
| DefaultDecision.DefaultHoldsIffDue | internal/config/config.go:111-127 | in any activation that shows the resource, the program comes to true iff the resource is due |
| DefaultDecision.EnvShowsFacts | internal/engine/decision.go:125-139 | the engine's activation and lookup show the generation, the instant and the last Reconciled condition, or its stand-in |
| DefaultDecision.DefaultPublishesIffDue | internal/config/config.go:111-127 | closed form for every resource and instant: publishes iff the age is defined and generation mismatch, or new and not reconciled, or older than 30m or 10s; without the condition iff the generation is positive |
| Due.DueStaysDue | internal/config/config.go:113-125 | an unchanged resource that is due stays due iff the age still fits a duration |
| Due.PublishableStaysPublishable | internal/config/config.go:113-125 | the same of the engine's decision |
| Due.SomeInstantIsDue | internal/sentinel/sentinel.go:150-174 | among instants at most a gap apart that pass the threshold, one within the gap finds the resource due |
| Due.ImmediateTriggerPublishesIff | docs/sentinel-operator-guide.md:71-72 | new resources and generation mismatches are published at once iff the age of the condition is defined |
| Due.MismatchHeldBack | docs/sentinel-operator-guide.md:72 | a mismatch with a zero-time condition is never published from 1970 on |
| Selectors.ToMap | internal/config/config.go:95-107 | the loop builds the selector map of the specification |
| Selectors.LastEntryWins | internal/config/config.go:95-107 | a label has the value of its last entry |
| Selectors.OnlyListedLabels | internal/config/config.go:95-107 | only listed, non-empty labels are selected on |
| Selectors.LabelSelectorToSearchString | internal/client/client.go:217-231 | whatever order the map is visited in, the result is what every enumeration of the map prints; it is empty iff the map is |
| Selectors.PrintIgnoresOrder | internal/client/client.go:222-230 | two enumerations of one selector print the same string |
| Strings.SortedIsUnique | internal/client/client.go:229 | two sorted permutations of the same strings are equal |
| Strings.SortSorted | internal/client/client.go:229 | the sort used as specification sorts |
| Selectors.BuildSearchString | internal/client/client.go:236-251 | the combined string is one flat join of sorted clauses and non-empty filters in order; empty iff there is nothing to join |
| Selectors.FilterKept | internal/client/client.go:244-248 | a filter keeps its place among the others unless it is empty |
| Strings.JoinFlat | internal/client/client.go:236-251 | a join used as the first part of a join adds no structure |
| Selectors.SearchFor | internal/client/client.go:217-231 | every selector map has a string that all its enumerations print |
| Selectors.OneSearchString | internal/client/client.go:217-231 | it has only one |
| SearchReader.RoundTripIff | internal/client/client.go:211-231 | the reader recovers a selector from its search string iff no key contains the text `='`, whatever the values contain |
| SearchReader.RoundTrip | internal/client/client.go:211-231 | the direction used elsewhere: such a selector is recovered exactly |
| SearchReader.ReadKeysArePlain | internal/client/client.go:211-216 | whatever text is read, the keys found in it do not contain `='` |
| SearchReader.PrinterInjective | internal/client/client.go:211-231 | different selectors with such keys never print the same |
| SearchReader.KeysWithOpeningCollide | internal/client/client.go:226 | outside them printing is not injective: there are two different selectors with one search string |
| SearchReader.ValueReads | internal/client/client.go:225 | doubling quotes is undone by reading, wherever the clause stands |
| SearchReader.SelectsIffMatches | internal/client/client.go:211-231 | a resource is selected iff it has every label of the selector with its value |
| SearchReader.ShardsAreDisjoint | docs/multi-instance-deployment.md:9-13 | instances on different values of one label never select the same resource |
| SearchReader.ShardsCover | docs/multi-instance-deployment.md:11 | shards on one label watch a resource iff its value is one of theirs |
| SearchReader.NoLabelsWatchesAll | internal/config/config.go:95-107 | a selector list without labels watches everything |
| Payload.ValidateMessageDataLeaves | internal/config/config.go:408-432 | accepted iff no node at any depth is nil or the empty text, whatever order keys are visited in; a refusal gives the path of such a node |
| Payload.CompileNode | internal/payload/builder.go:97-128 | the case analysis computes the compiled form of the specification, or refuses with the path of a node that cannot be compiled |
| Payload.CompileMap | internal/payload/builder.go:84-94 | the loop, in any order, compiles all entries or refuses the map with the path of a node that cannot be compiled |
| Payload.AcceptedIff | internal/payload/builder.go:28-41 | a definition is accepted iff validation accepts it, all leaves have a supported type and all texts compile |
| Payload.NewBuilder | internal/payload/builder.go:67-81 | a builder is made iff the definition is a map and compiles; otherwise it says which of the two failed, and where |
| Payload.EvalCompiledMap | internal/payload/builder.go:197-212 | the loop, in any order, keeps exactly the entries with a value |
| Payload.EvalCompiledNode | internal/payload/builder.go:216-245 | absent values and objects without entries are left out |
| Payload.ValueIffSomeLeaf | internal/payload/builder.go:216-245 | an accepted definition has a value iff some leaf of it, at any depth, has one |
| Payload.CompiledMeaning | internal/payload/builder.go:197-245 | at every path: something iff a leaf at or below has a value, the leaf's value at a leaf, an object at an object |
| Payload.LeavesShow | internal/payload/builder.go:216-245 | leaf by leaf: an expression shows its value if it has one, a number or boolean itself, anything else nothing |
| Payload.MeaningIsUnique | internal/payload/builder.go:197-245 | there is only one tree with that meaning |
| Payload.CompiledIsTheMeaning | internal/payload/builder.go:84-128 | compile-then-evaluate is exactly the direct reading of an accepted definition |
| Payload.PayloadMeaning | internal/payload/builder.go:133-135 | the same of the payload of the whole definition, whose root object may be empty |
| Metrics.GetResourceSelectorLabel | internal/metrics/metrics.go:480-495 | the loop writes the comma-separated pairs, or `all` |
| Metrics.SelectorLabelTells | internal/metrics/metrics.go:480-495 | the label is never empty, and is `all` for the empty list only |
| Metrics.SelectorLabelGrows | internal/metrics/metrics.go:480-495 | the label grows by one `label:value` pair per selector, separated by commas |
| Metrics.IncMeans | internal/metrics/metrics.go:314-329 | a counter moves by one under its own label tuple, nowhere else, and not at all if a label is empty |
| Metrics.SetPendingMeans | internal/metrics/metrics.go:281-298 | the gauge shows the count, never less than 0, under its own labels and stays under all others |
| Metrics.Registry.UpdateEventsPublished | internal/metrics/metrics.go:314-329 | one more under its labels, nothing else changes; dropped if a label is empty |
| Metrics.Registry.UpdateResourcesSkipped | internal/metrics/metrics.go:346-361 | one more under its labels, nothing else changes; dropped if a label is empty |
| Metrics.Registry.UpdateAPIErrors | internal/metrics/metrics.go:413-428 | one more under its labels, nothing else changes; dropped if a label is empty |
| Metrics.Registry.UpdateBrokerErrors | internal/metrics/metrics.go:444-459 | one more under its labels, nothing else changes; dropped if a label is empty |
| Metrics.Registry.UpdatePendingResources | internal/metrics/metrics.go:281-298 | the gauge is set, negative counts to 0; dropped if a label is empty |
| Metrics.Registry.UpdateLastSuccessfulPollTimestamp | internal/metrics/metrics.go:467-475 | the timestamp is set, nothing else changes |
| Startup.Validate | internal/config/config.go:335-379 | a config is accepted iff name, resource type, API, interval, decision and payload definition are all as required; a refusal names a justified complaint, the first in the order of the checks |
| Startup.NewSentinel | internal/sentinel/sentinel.go:49-73 | a sentinel is made iff there is no payload definition or it compiles; it holds the compiled definition and the engine's program |
| Startup.Assemble | cmd/sentinel/main.go:274-320 | a sentinel starts iff the config is valid and all expressions compile; a refusal tells which of the three failed; it starts with nothing sent or counted and meets what every cycle relies on |
| Startup.MessagesShowConfig | cmd/sentinel/main.go:274-320 | end to end: after any run the data of every message at the broker shows, at every path, what the config describes for the resource it was published for |
| Sentinel.Poller.constructor | internal/sentinel/sentinel.go:56-62 | a new sentinel has no last poll |
| Sentinel.Poller.BuildSearch | internal/sentinel/sentinel.go:130-139 | every cycle sends the one search string of the configured selectors |
| Sentinel.Poller.BuildEventData | internal/sentinel/sentinel.go:273-283 | exactly the entries of the compiled definition that have a value, each with its value; empty without a builder |
| Sentinel.Poller.Dispatch | internal/sentinel/sentinel.go:173-248 | the outcome of one decision and the state after it, as `Counting.OutcomeIff` and `Counting.RunCountsItems` characterise them |
| Sentinel.Poller.Handle | internal/sentinel/sentinel.go:156-251 | the outcome of one resource depends on that resource and its own answers alone |
| Sentinel.Poller.HandleAll | internal/sentinel/sentinel.go:151-251 | the loop takes the state through the outcomes in order, and its three totals count them |
| Sentinel.Poller.Trigger | internal/sentinel/sentinel.go:108-269 | one cycle on the real objects is one step of the specification on what the API answers to the search string of the selectors; the logged totals are those of the outcomes |
| Sentinel.Poller.Start | internal/sentinel/sentinel.go:82-105 | the event loop is a run of cycles: one at once, one per tick before the first cancellation, failed cycles included, none after it |
| Sentinel.TicksByIndex | internal/sentinel/sentinel.go:94-104 | there are as many cycles as events before the first cancellation, and the k-th is what the API answers at the k-th event |
| Sentinel.NothingAfterDone | internal/sentinel/sentinel.go:96-98 | no event after a cancellation runs a cycle |
| Counting.OutcomeIff | internal/sentinel/sentinel.go:164-248 | when each of the six outcomes occurs, from the ID, the decision and the answers for the item |
| Counting.TallyCountsItems | internal/sentinel/sentinel.go:164-254 | the totals of a cycle are numbers of resources: without ID, held back, delivered, refused, and as pending all with an ID whose decision is true |
| Counting.LoopCountsItems | internal/sentinel/sentinel.go:156-251 | in a cycle each counter moves, under the labels of the config, by the number of resources it stands for; skips also reason by reason |
| Counting.GaugeCountsItems | internal/sentinel/sentinel.go:253-254 | the pending gauge shows the number of resources for which an event was due |
| Counting.RunCountsItems | internal/sentinel/sentinel.go:108-269 | over any run: published events are the items due that got through, broker errors those the broker refused, skips per reason those with that decision, API errors the failed fetches |
| Events.ToLowerAt | internal/sentinel/sentinel.go:184 | lower-casing changes ASCII capitals one by one and nothing else |
| Events.PublishedSaysSo | internal/sentinel/sentinel.go:173-237 | what an item publishes carries the topic, its generated ID, type, source and version of the event, and the evaluated payload |
| Events.DataShowsDefinition | internal/sentinel/sentinel.go:273-283 | the data of such a message shows, at every path, what the payload definition describes |
| Events.BrokerHoldsExactly | internal/sentinel/sentinel.go:156-251 | after any run a message is at the broker iff some fetched item that will publish made it |
| Events.EveryMessageSaysSo | internal/sentinel/sentinel.go:156-251 | every message at the broker after any run tells of a resource with an ID that some cycle fetched and the engine decided to publish |
| Runs.OutcomesPartition | internal/sentinel/sentinel.go:150-254 | every resource is empty-ID, skipped, published or failed, and refusals are failures |
| Runs.OneCounterPerOutcome | internal/metrics/metrics.go:314-459 | each outcome that reports a metric changes one counter by one; no update is lost to an empty label |
| Runs.ReasonedIsCounted | internal/metrics/metrics.go:314-459 | the same of any outcome counted under a non-empty reason |
| Runs.OutcomesHaveEffect | internal/sentinel/sentinel.go:156-251 | closed form of any list of outcomes: messages appended in order, counters grown by the numbers of outcomes, the rest untouched |
| Runs.LoopHasEffect | internal/sentinel/sentinel.go:156-251 | the same of the loop over the fetched resources |
| Runs.SkipsByReason | internal/sentinel/sentinel.go:239-247 | skips are counted under their reasons |
| Runs.LoopOverConcat | internal/sentinel/sentinel.go:156-251 | the loop is a homomorphism over concatenation of the fetched resources |
| Runs.PublishedIff | internal/sentinel/sentinel.go:164-237 | an event is published iff the ID is not empty, the decision is true, and ID, encoding and broker succeed |
| Runs.MessagesAreExpected | internal/sentinel/sentinel.go:164-237 | the messages among the outcomes are those of the resources that will publish, in order |
| Runs.BrokerReceivesExpected | internal/sentinel/sentinel.go:156-251 | the broker receives exactly the events of those resources, in order |
| Runs.Isolation | internal/sentinel/sentinel.go:156-251 | changing or failing one resource leaves the events before and after it as they are |
| Runs.CycleConserves | internal/sentinel/sentinel.go:253-266 | in a successful cycle total = empty-ID + published + skipped + failed, pending = published + failed, and the counters grow by exactly that |
| Runs.FailedFetchKeeps | internal/sentinel/sentinel.go:139-146 | a failed fetch adds one API error and changes nothing else |
| Runs.RunConserves | internal/sentinel/sentinel.go:108-269 | after every cycle of every run the broker holds as many events as the published counter sums to; skips, refusals and failed fetches are each counted once |
| Runs.MidCycleConserves | internal/sentinel/sentinel.go:156-251 | the same after every resource of the cycle under way |
| Runs.LatestSuccessShows | internal/sentinel/sentinel.go:253-266 | poll time and pending gauge are those of the latest successful cycle, whatever failed after it |
| Runs.PolledIffSucceeded | internal/sentinel/sentinel.go:75-79 | there is a last-poll time iff some cycle of the run succeeded |
| Runs.AttemptsIfDue | internal/sentinel/sentinel.go:170-174 | under the default program a fetched resource gets an attempt iff it is due |
| Runs.AttemptWithinGap | internal/sentinel/sentinel.go:150-174 | in any run of successful polls at most a gap apart, an unchanged resource gets an attempt within threshold plus gap of its last update |
| Runs.AttemptInRun | internal/sentinel/sentinel.go:82-105 | the same of any run with failed fetches in between: only the gaps between successful polls count |
| Runs.RunDelivers | internal/sentinel/sentinel.go:156-251 | what will publish in some cycle of a run is at the broker when the run ends |
| Runs.DeliveredInRun | internal/sentinel/sentinel.go:82-105 | end to end: within threshold plus gap some poll finds the resource due, and its event reaches the broker unless ID, encoding or broker fail for it then |
| Runs.ShardsHandleApart | docs/multi-instance-deployment.md:9-13 | for any number of instances on pairwise distinct values of one label, a resource ID fetched in one run, in any version, is fetched in no other |
| Runs.ShardsPublishApart | docs/multi-instance-deployment.md:9-13 | so no two running sentinels on different shards ever deliver an event of the same resource ID |
| Health.ReadinessChecker.constructor | internal/health/health.go:29-34 | a new checker is not ready and has no checks |
| Health.ReadinessChecker.RunChecks | internal/health/health.go:147-160 | each check has its error text or `ok` |
| Health.ReadinessChecker.Readyz | internal/health/health.go:110-144 | 200 iff ready is set and every check passes or fails with the text `ok`, 503 otherwise; the text of every check is returned, `unavailable` while not ready |
| Health.ReadinessChecker.AddCheck | internal/health/health.go:37-41 | a check is added, or replaces the one of its name |
| Health.ReadinessChecker.SetReady | internal/health/health.go:45-47 | the flag is set and the checks stay |
| Health.Wire | cmd/sentinel/main.go:303-327 | the serve command ends up ready with the broker check and the first-poll check |
| Health.ReadyOverRuns | cmd/sentinel/main.go:303-327 | in every reachable state /readyz is 200 iff a poll has succeeded, shutdown has not begun and the broker check passes |
| Health.HealthOverRuns | internal/health/health.go:77-104 | /healthz is 503 iff the latest success is older than three intervals, and 200 otherwise |
| Health.HealthyBeforeFirstPoll | internal/health/health.go:89-92 | before the first success /healthz is 200 |
| Health.WrappedThresholdIsInvalid | cmd/sentinel/main.go:331 | /healthz is 500 iff there is no poll function or three intervals overflow into a non-positive duration |
| Retry.RetriedReplies | internal/client/client.go:283-316 | a reply is retried iff there is no response or the status is 5xx, 408 or 429 |
| Retry.ReplyMeans | internal/client/client.go:283-316 | a reply is a success iff its body was decoded and no status of 400 or more came with it; any other is an API error with that status, or 0, retriable or not |
| Retry.ContinuesIff | internal/client/client.go:162-185 | another attempt follows iff the reply is worth retrying, the fetch is not cancelled and the time with the next wait is within 30s |
| Retry.EndingMeans | internal/client/client.go:162-187 | how a fetch ends, in terms of the last reply |
| Retry.EighthIsLast | internal/client/client.go:20-31 | for every jitter and duration no attempt follows the eighth |
| Retry.EightIsReached | internal/client/client.go:20-31 | eight attempts do happen |
| Retry.FetchWithRetry | internal/client/client.go:154-190 | one to eight attempts; the last reply decides: success iff it delivers, cancelled iff it is worth retrying and the fetch was cancelled, otherwise an API error with its status |

## Left out

- HTTP, the generated API client, the copying of items into resources, input checks of `FetchResources`: a fetch is a list or a failure.
- Full CEL: the parser, the type checker, macros, lists, floating point and string helpers. Expressions are modelled as parsed trees, the compiler as a function that accepts or refuses a text; errors while creating the CEL environment count as refusals.
- The exact wording of CEL errors and the escaping of `%q` in decision reasons; the two fixed reasons and all prefixes are exact.
- `condition()` with an argument that is not a string: the binding's own branch is modelled, although the declared overload keeps CEL from calling it.
- Sentinel.Poller.Trigger: does not observe the poll duration histogram; the fetch with its retries is one answer to the search string.
- Metrics.Registry.UpdateLastSuccessfulPollTimestamp: does not model the warning for a gauge that was never registered.
- Runs.MidCycleConserves: speaks of the states between resources, not of the instant between the broker's answer and the counter.
- Error texts: configuration errors are values; where several keys of a map are at fault, the path reported is that of some faulty node.
- What CEL's `null` becomes in a payload: a runner that has no value for a text stands for a failure, a missing output or a nil value alike.
- Lower-casing of letters outside ASCII in event types.
- Metric registration, logging, tracing, CloudEvent validation and JSON bodies.
- Additional filters as conditions: only the shape of the combined string is stated, since a filter with a top-level `or` is not put in parentheses.
- Label keys that contain `='`: such selectors are never read back, and some of them print the same as another selector.
- Concurrency: polls and requests are interleaved whole; the locks and atomics are not modelled.
- Configuration loading, redaction, Helm charts, the mock API and the rest of `cmd/sentinel/main.go`.
