# Dafny model of the ati-evn pipeline

This project models the algorithms and state machines of the ati-evn threat-intelligence pipeline and
proves what they promise. Each module follows one component of the Python code. Code that updates
things in place is a class or a method with loops, proved equal to a specification function; the
lemmas then state properties of that function over every input, every step or every run.

| module | component |
|---|---|
| `EditDistance`, `Typosquat` | Levenshtein distance by a two-row table, and the scan over known domains |
| `ConfirmGate`, `GateRuns` | confirm-before-execute registry of the action tools, and its runs |
| `AgentTurn`, `AgentAnswers`, `AgentRequests`, `GatedTurn` | function-calling loop of one analyst turn, what it answers and asks, and the registry inside it |
| `CampaignClusters`, `CampaignConfidence` | greedy campaign clustering and its confidence score |
| `AlertQueue`, `AlertRuns`, `AlertTicks`, `DedupeKey` | alert queue, its runs, its polls, its dedupe key |
| `AlertLosses`, `AlertGaps` | which alerts get out, which do not, and examples of both |
| `FeedWindow` | feed fetch windows and run history |
| `Ingest` | dedup of incoming indicators and ingest statistics |
| `FindingMerge`, `Routing`, `RoutingOutcomes`, `AlertEnqueue` | merging sightings into findings, the routing pass, what it counts, and its alerts |
| `LookupScore`, `RiskAggregate` | lookup-table scoring formula, and the aggregate over providers |
| `JsonBraces`, `JsonExtract` | bracket scanner for model output, and the three tiers around it |
| `DomainMatch` | label-boundary domain matching |
| `Options`, `Sequences`, `Counters` | shared definitions |

What comes from outside is a parameter: `lower().strip()` and the like are arbitrary string functions,
the normalisation and sanity check of an indicator is one arbitrary function, the language model, the
tools and Telegram are arbitrary functions of the request number, row or customer, and each clock
reading is an argument. Times are whole seconds, floats are exact reals, table rows are records in a
sequence whose position is the row id, and digests are injective.

`dafny verify dfyconfig.toml` checks the whole project.

## Where the code differs from its own documentation

The model follows the code.

- `closest_distance` also returns nothing when any known entry is blank, not only when one equals the domain
  (`BlankEntrySilencesScan`).
- A finding counts as newly created again whenever the only source that has reported it repeats itself
  (`CountsAsCreatedIff`, `RepeatBySameSourceCountsTwice`), and is then queued again if it warrants an alert
  (`TimesQueued`, `RepeatIsQueuedTwice`).
- The dispatch rule lets medium findings with two sources through, but a source that comes in a later pass never
  gets a finding queued, whatever its severity then is (`QueuedIff`, `SecondSourceIsNotQueued`).
- Dedupe looks at alerts that are out, so two alerts with one key can both be delivered
  (`DeliveredTwiceIff`, `SameKeyDeliveredTwice`).
- The consecutive-failure count looks at ten runs only (`TenRunsSufficeIff`, `LongFailureIsCountedAsTen`).
- Batching takes recent pending rows whether or not their retry time has come (`BatchSendTouches`,
  `EarlyRetryInBatch`). Joining a batch settles whether a row is delivered: only if Telegram accepts that one message
  and the row's entity exists (`BatchDecidesDelivery`, `RefusedBatchIsLost`, `MissingEntityIsLost`).
- An alert deduped to such a lost row is lost with it (`DedupedIsLostIff`, `DedupedToLostAlert`).
- A refused batch is charged to every alert due in the poll, also to those it does not show, so an alert can fail
  without ever having been handed to Telegram (`AttemptsExceedRefusalsIff`, `NeverSentButFailed`).
- Silence keeps an alert from going out on its own, not from going out in a batch (`SilencedGoesOutIff`,
  `SilencedAlertIsDelivered`).
- A detection matched by several customers is linked to the finding merged last, which need not be that of its top
  customer (`LinkAgreesIff`, `LinkedToOtherCustomer`).
- Successful fetches leave a gap when two neighbouring ones start more than 168 hours apart, and only then if they take
  no longer than the buffer (`SuccessesLeaveNoGapIff`, `LatePauseLeavesGap`).
- Raw tool-call markup is rejected in ordinary steps only, not in the retried or forced reply (`LeakReachesAnalystIff`,
  `LeakHappens`).
- A refused confirm is to stop its tool for the rest of the turn, but only the refusal for a missing pending call does;
  after an ambiguous one the next call reaches the tool again (`RefusedToolIsStoppedIff`, `AmbiguousConfirmIsRepeated`),
  and can execute the action in the same turn (`RepeatRunsIff`, `AmbiguousConfirmThenExecutes`).
- The bracket scanner counts brackets inside string literals (`BraceInStringCutsObject`, `BlockComesBackWholeIff`).
- Extraction tries objects before lists, so a list of objects between other text yields its first object
  (`ListComesBackIff`, `ListOfObjectsIsLost`, `EmptyObjectInListIsLost`).
- A lone suspicious verdict is partial consensus, although nobody disagrees, and suspicious next to malicious is
  consensus, although the documentation lists it as partial (`ConsensusIff`, `SuspiciousAloneIsPartial`,
  `SuspiciousAndMaliciousAgree`).
- A lookup value within 1e-9 below a key takes that key's score, not the lower bucket's (`LookupInside`,
  `JustBelowKeyTakesItsScore`).

## Model

| member | source | states |
|---|---|---|
| EditDistance.Levenshtein | src/ati_evn/brand_rules/typosquat.py:5-24 | the two-row loop returns the recurrence value for all strings, which `DistIsEditDistance` identifies |
| EditDistance.NextRow | src/ati_evn/brand_rules/typosquat.py:14-23 | from the row of distances for a prefix, one pass builds the row for the prefix extended by one character |
| EditDistance.DistIsEditDistance | src/ati_evn/brand_rules/typosquat.py:5-24 | that value, and no other number, is the length of a shortest insert/delete/substitute script: some script attains it, none is shorter |
| EditDistance.EditDistanceIsMetric | src/ati_evn/brand_rules/typosquat.py:5-24 | shortest-script length is a metric, at least the length difference and at most the longer length |
| EditDistance.NoScriptIsShorter | src/ati_evn/brand_rules/typosquat.py:17-22 | no edit script of any kind beats the recurrence |
| EditDistance.ShortestScript | src/ati_evn/brand_rules/typosquat.py:17-22 | a script attaining the recurrence exists for every pair of strings |
| Typosquat.ClosestDistance | src/ati_evn/brand_rules/typosquat.py:27-45 | nothing exactly when the domain or list is empty or an entry is blank or the domain itself; otherwise the positive least edit distance |
| Typosquat.IsTyposquat | src/ati_evn/brand_rules/typosquat.py:48-52 | a hit exactly when the scan is not suppressed and some known domain is within the threshold |
| Typosquat.OnlyTheSetOfKnownMatters | src/ati_evn/brand_rules/typosquat.py:27-52 | the answer depends on the set of known entries only, not on order or repetition |
| Typosquat.BlankEntrySilencesScan | src/ati_evn/brand_rules/typosquat.py:36-45 | one blank entry silences the scan, however close the other entries come |
| ConfirmGate.Gate.PruneExpired | src/ati_evn/agent/tools/_action_base.py:55-59 | exactly the entries whose expiry lies before the clock go |
| ConfirmGate.Gate.FindPendingForTool | src/ati_evn/agent/tools/_action_base.py:62-99 | the candidates returned do not depend on the order in which the dict is iterated |
| ConfirmGate.LeadDecides | src/ati_evn/agent/tools/_action_base.py:88-99 | the strict lead of the best-scored candidate over the second is the existence of a unique best candidate |
| ConfirmGate.Gate.Begin | src/ati_evn/agent/tools/_action_base.py:182-230 | the call is run, refused as ambiguous or refused as unmatched as specified, and only expired entries and the consumed one leave the registry; `DecisionIsLicensed` says on which arguments it runs |
| ConfirmGate.Gate.FallBack | src/ati_evn/agent/tools/_action_base.py:191-230 | a confirm without strict key runs on the one candidate left, or is refused as ambiguous or unmatched, as specified |
| ConfirmGate.Gate.Finish | src/ati_evn/agent/tools/_action_base.py:247-254 | a destructive tool that asks for confirmation registers its arguments for the next 300 seconds |
| ConfirmGate.EqualDigestsIff | src/ati_evn/agent/tools/_action_base.py:48-52 | two calls have one digest exactly when every argument but the flag is the same, or absent, in both |
| ConfirmGate.ConfirmedIff | src/ati_evn/agent/tools/_action_base.py:189 | the flag counts as set for every value but null, false, 0 and the empty text |
| ConfirmGate.ScoreAfter | src/ati_evn/agent/tools/_action_base.py:88-95 | a stored call scores one for each resent argument it has with an equal value, the flag excepted |
| ConfirmGate.PyEqualsIff | src/ati_evn/agent/tools/_action_base.py:88-95 | values agree when equal as Python values, a flag being the number 0 or 1 |
| GateRuns.ConfirmedExecutionIsLicensed | src/ati_evn/agent/tools/_action_base.py:182-259 | in every run, a confirmed execution uses up one entry of its own session and tool, registered at most 300 s before, with the same value, or none, for every argument but the flag, and no execution in between used it |
| GateRuns.ExecutionsNeverOutnumberRegistrations | src/ati_evn/agent/tools/_action_base.py:187-259 | confirmed executions of a (session, tool, arguments), plus the entry still pending, never exceed its registrations |
| GateRuns.PendingLastsFiveMinutes | src/ati_evn/agent/tools/_action_base.py:55-59 | in every run, a call that asked for confirmation is pending for exactly the next 300 seconds, with its arguments, unless it is used or asked again |
| GateRuns.RepeatedArgumentsRun | src/ati_evn/agent/tools/_action_base.py:189-200 | a confirm that repeats the arguments of a pending call of its session and tool runs as it came, whatever else is pending |
| GateRuns.FallbackIsUnambiguous | src/ati_evn/agent/tools/_action_base.py:62-99 | a confirm without strict key executes exactly when one candidate is left or one is strictly best; it is unmatched exactly when there is none |
| GateRuns.RunsAsItCameIff | src/ati_evn/agent/tools/_action_base.py:187-230 | a call runs as it came, without a pending entry, exactly when the tool is not destructive or the flag is not set |
| GateRuns.RefusalChangesOnlyExpired | src/ati_evn/agent/tools/_action_base.py:213-230 | a refused confirm changes nothing but expired entries |
| GateRuns.SessionsAreIsolated | src/ati_evn/agent/tools/_action_base.py:55-99 | every decision of an interleaved run is the decision of the run of its own session alone |
| AgentTurn.RunFunctionCalling | src/ati_evn/agent/loop/function_calling.py:39-300 | the loop's messages, counters, log and answer are those of the specified turn, whose answer `AnswerIsDecided` gives |
| AgentTurn.ExecuteToolCalls | src/ati_evn/agent/loop/function_calling.py:210-294 | the inner loop answers the calls of one reply in order, or stops the turn at arguments it cannot use |
| AgentTurn.TurnIsSafe | src/ati_evn/agent/loop/function_calling.py:74-353 | every request carries a history with exactly one answer per tool call in order, a tool that failed the pending check is not dispatched again, at most max_steps + 1 requests, at most one after the token cap |
| AgentTurn.AnswerAllAnswersEach | src/ati_evn/agent/loop/function_calling.py:210-294 | answering all calls keeps the history and appends one answer per call with the same ids |
| AgentTurn.LeakReachesAnalystIff | src/ati_evn/agent/loop/function_calling.py:111-188 | raw tool-call markup is the final answer exactly when, after a number of replies within budget whose tool calls can all be answered, the loop asks once more (steps or tokens used up, or an answer without tool calls blank or cut off) and that last reply contains it |
| AgentTurn.ConcludedLeakIff | src/ati_evn/agent/loop/function_calling.py:111-188 | an answer without tool calls leaks exactly when it was blank or a cut-off text and the reply to the request that follows contains the markup |
| AgentTurn.ForcedLeakIff | src/ati_evn/agent/loop/function_calling.py:303-353 | a forced answer leaks exactly when the reply to it contains the markup |
| AgentTurn.LeakHappens | src/ati_evn/agent/loop/function_calling.py:87-188 | for any settings there are models that make each of the four ways leak |
| AgentTurn.AnsweredIff | src/ati_evn/agent/loop/function_calling.py:210-262 | the calls of a reply are all answered exactly when each call that names an unblocked registered tool has an object as its arguments |
| AgentTurn.DispatchedIff | src/ati_evn/agent/loop/function_calling.py:210-268 | a call reaches its tool exactly when the tool is registered and not blocked and the arguments are an object |
| AgentAnswers.AnswerIsDecided | src/ati_evn/agent/loop/function_calling.py:74-353 | for every environment and from the replies alone: a text is the answer exactly when the reply that ends the turn, its nonblank retry when cut off, or the forced reply says it; the apology exactly when the forced reply has no text; failure exactly on an API error, no choice, leaked markup in a step, or arguments that cannot be used |
| AgentAnswers.UsageIsReported | src/ati_evn/agent/loop/function_calling.py:90-93 | the turn reports the tokens and the number of all replies it got, forced and retried ones included |
| AgentRequests.RequestsAreChained | src/ati_evn/agent/loop/function_calling.py:76-353 | in every turn each request carries the one before it and what the reply to that calls for: its tool calls and their answers, one more message past the cap, after a blank answer and after the last step, and nothing new when an answer was cut off |
| AgentAnswers.FirstRequest | src/ati_evn/agent/loop/function_calling.py:54-66 | the first request carries the history and the message of the analyst, and nothing else |
| AgentAnswers.AnswerSays | src/ati_evn/agent/loop/function_calling.py:210-294 | each answer to a call says that its tool is blocked, or that there is none, exactly when that is so, or what the tool returned |
| GatedTurn.RefusalBlocksIff | src/ati_evn/agent/loop/function_calling.py:272-277 | a refused confirm blocks its tool exactly when the session has no pending call of the tool left |
| GatedTurn.RefusedToolIsStoppedIff | src/ati_evn/agent/loop/function_calling.py:66-73 | whatever the turn does in between, the next call of a refused tool in a later reply reaches the tool exactly when the refusal was not for a missing pending call |
| GatedTurn.RefusedToolIsStoppedInReplyIff | src/ati_evn/agent/loop/function_calling.py:210-294 | the same for the next call in the same reply |
| GatedTurn.UnmatchedConfirmIsNotRepeated | src/ati_evn/agent/loop/function_calling.py:66-73 | in every turn, a tool refused for a missing pending call is not dispatched again |
| GatedTurn.AmbiguousConfirmIsRepeated | src/ati_evn/agent/tools/_action_base.py:213-220 | a whole turn with one registry in which an ambiguous confirm is repeated in the same reply, reaches the tool both times and is refused both times |
| GatedTurn.RepeatRunsIff | src/ati_evn/agent/tools/_action_base.py:187-230 | with one registry through the turn, a confirm repeated after an ambiguous refusal executes exactly when it names a live pending call by its arguments, or one is left or agrees best |
| GatedTurn.AmbiguousConfirmThenExecutes | src/ati_evn/agent/tools/_action_base.py:187-230 | a whole turn in which the confirm after an ambiguous refusal executes the body |
| GatedTurn.TwoPendingIsReachable | src/ati_evn/agent/tools/_action_base.py:247-254 | the registry those turns start from is left by two calls that asked for confirmation |
| CampaignClusters.GrowFrom | src/ati_evn/campaigns/detector.py:183-198 | stopping at the first finding past the window gives the same cluster as examining the whole rest of the sorted list |
| CampaignClusters.ClusterByTechnique | src/ati_evn/campaigns/detector.py:167-204 | the nested loops return the greedy clusters of the time-sorted findings |
| CampaignClusters.ClustersAreGreedyMaximal | src/ati_evn/campaigns/detector.py:180-202 | each cluster has a common technique, admitted each member at half overlap, and leaves out no unclaimed later finding of the window that still shares half of its techniques |
| CampaignClusters.ClustersAreDisjointCampaigns | src/ati_evn/campaigns/detector.py:167-204 | clusters are pairwise disjoint, of at least three distinct findings within six hours of the seed, with one technique common to all |
| CampaignClusters.ClustersAreDisjoint | src/ati_evn/campaigns/detector.py:177-202 | no finding is in two clusters |
| CampaignClusters.LeftOutGroupsAreSmall | src/ati_evn/campaigns/detector.py:199-202 | a finding in no cluster was tried as a seed after the clusters seeded before it, and only those, had claimed their members, and its group was smaller than three |
| CampaignConfidence.EveryClusterIsConfident | src/ati_evn/campaigns/detector.py:131-164 | every cluster the detector returns has confidence above 0.063 and at most 1, for the score that `ConfidenceIs` takes apart |
| CampaignConfidence.ConfidenceBounds | src/ati_evn/campaigns/detector.py:112-156 | the same bounds for any three findings within six hours that share a technique |
| CampaignConfidence.ConfidenceIsOrderFree | src/ati_evn/campaigns/detector.py:112-156 | reordering a cluster does not change its confidence |
| CampaignConfidence.ConfidenceIs | src/ati_evn/campaigns/detector.py:112-156 | for every cluster the score is 0.4 of the shared fraction of techniques, 0.3 of the rate over five an hour, 0.04 per asset up to five and 1/30 per source up to three, each of the four described without the code |
| CampaignConfidence.AssetsMoveScore | src/ati_evn/campaigns/detector.py:143-145 | two clusters that differ in their assets only differ by 0.04 for each further asset up to five |
| CampaignConfidence.SourcesMoveScore | src/ati_evn/campaigns/detector.py:147-149 | two clusters that differ in their sources only differ by 1/30 for each further source up to three |
| CampaignConfidence.TimesMoveScore | src/ati_evn/campaigns/detector.py:137-141 | two clusters that differ in their times only differ by 0.3 of the difference of their rates |
| CampaignConfidence.TechniquesMoveScore | src/ati_evn/campaigns/detector.py:112-135 | two clusters that differ in their techniques only differ by 0.4 of the difference of their shared fractions |
| CampaignConfidence.FullConfidenceIff | src/ati_evn/campaigns/detector.py:131-156 | the score is 1 exactly when all techniques are held by half of the findings, there are five findings an hour, five assets and three sources |
| AlertQueue.AlertStore.FindExistingDispatch | src/ati_evn/alerts/dedupe.py:27-38 | the latest row with the key dispatched or batched within the window, or nothing if there is none |
| AlertQueue.AlertStore.Enqueue | src/ati_evn/match/customer_router.py:239-253 | the new row is pending, or deduped to the existing dispatch |
| AlertQueue.AlertStore.Acknowledge | src/ati_evn/agent/tools/acknowledge_alert.py:47-52 | only the state of the one row changes |
| AlertQueue.AlertStore.CheckAndBatch | src/ati_evn/alerts/batcher.py:20-64 | below the threshold nothing changes; otherwise all recent pending rows of the customer join one new batch with their count and severity counts |
| AlertQueue.AlertStore.MarkRowFailed | src/ati_evn/telegram/bot_alert.py:146-159 | one more attempt, and either failed for good or due again after the backoff |
| AlertQueue.AlertStore.DispatchSingle | src/ati_evn/telegram/bot_alert.py:40-109 | the row and the record of sends after each way one dispatch can end |
| AlertQueue.AlertStore.DispatchBatch | src/ati_evn/telegram/bot_alert.py:186-201 | one message that shows the rows of the batch whose entity exists; when refused, the alerts of this tick are marked failed |
| AlertQueue.AlertStore.DispatchLoopOnce | src/ati_evn/telegram/bot_alert.py:162-217 | one poll serves the due rows customer by customer as specified; `PollSettles` and `PollHandsOver` say what that makes of each row |
| AlertRuns.StepMovesRows | src/ati_evn/telegram/bot_alert.py:162-217 | every action changes each row by one allowed move and records exactly what it hands to Telegram |
| AlertRuns.StepKeepsInv | src/ati_evn/telegram/bot_alert.py:146-217 | every action keeps the invariant of the queue |
| AlertRuns.AtMostOnceAndBoundedAttempts | src/ati_evn/telegram/bot_alert.py:146-217 | in every reachable state a row is in at most one accepted message and was tried on its own at most max-attempts times (once if that is 0); deduped rows were never handed over and point to an older row of their key that is not deduped |
| AlertRuns.AttemptsAreSpaced | src/ati_evn/telegram/bot_alert.py:155-173 | two attempts to send one row on its own are at least the backoff apart |
| AlertRuns.BatchesAreConserved | src/ati_evn/alerts/batcher.py:39-62 | a batch's count is the number of rows carrying its id and the sum of its severity counts, in every reachable state |
| AlertRuns.RowsKeepIdentity | src/ati_evn/alerts/batcher.py:57-62 | no action changes a row's customer, key, creation time or dedupe target, or moves it out of its batch, or makes it pending again |
| AlertRuns.BatchSendTouches | src/ati_evn/alerts/batcher.py:28-33 | a batch message shows exactly the recent pending rows of the customer whose entity exists, due or not |
| AlertRuns.LeavingPendingIsFinal | src/ati_evn/telegram/bot_alert.py:162-217 | a row that is no longer pending is never handed to Telegram again |
| AlertRuns.BatchDecidesDelivery | src/ati_evn/telegram/bot_alert.py:111-143 | a row that joins a batch stays in it and is delivered, in every continuation, exactly when the message of the batch is accepted and the row's entity exists |
| AlertRuns.RefusedBatchIsNeverDelivered | src/ati_evn/telegram/bot_alert.py:192-201 | the rows of a refused batch stay in it and are never delivered |
| AlertGaps.RefusedBatchIsLost | src/ati_evn/telegram/bot_alert.py:186-201 | a reachable queue and a poll after which its two pending rows are never delivered, however the run goes on |
| AlertGaps.MissingEntityIsLost | src/ati_evn/telegram/bot_alert.py:117-134 | a reachable queue and a poll with an accepted batch after which the row with the missing entity is never delivered |
| AlertLosses.DedupedIsLostIff | src/ati_evn/alerts/dedupe.py:27-38 | an alert deduped to another is never delivered, and its target is never delivered exactly when it is in a batch of which no accepted message shows it |
| AlertGaps.DedupedToLostAlert | src/ati_evn/match/customer_router.py:239-253 | a reachable queue in which a new alert is deduped to a row of a refused batch, and neither is ever delivered |
| AlertLosses.AttemptsExceedRefusalsIff | src/ati_evn/telegram/bot_alert.py:146-201 | over every run the attempts of a row are its refused messages, plus the refused batches charged to it that did not show it, minus those that showed it uncharged |
| AlertGaps.NeverSentButFailed | src/ati_evn/telegram/bot_alert.py:192-201 | a reachable queue and a poll after which an alert never handed to Telegram has failed for good |
| AlertLosses.PollHandsOver | src/ati_evn/telegram/bot_alert.py:162-217 | for each row, whether a poll hands it to Telegram: not if no polled row is of its customer or its entity is missing; with the customer's batch if enough rows are recent and it is among them; else on its own if it is polled and not silenced; never twice |
| AlertLosses.SilencedGoesOutIff | src/ati_evn/telegram/bot_alert.py:56-66 | a poll hands a silenced alert over exactly when some polled row is of its customer, enough of the customer's rows are recent, and the alert is among them |
| AlertLosses.PollSettles | src/ati_evn/telegram/bot_alert.py:162-217 | what one poll makes of every row: joined to its customer's batch and charged with its refusal, or silenced, sent or refused on its own, or left as it is |
| AlertLosses.RefusedIsDueIff | src/ati_evn/telegram/bot_alert.py:146-173 | a refused alert is due again exactly from the backoff after the refusal on, unless its attempts are used up |
| AlertLosses.NewIsDueIff | src/ati_evn/match/customer_router.py:239-253 | a new alert is due at once exactly when it is not deduped |
| AlertLosses.DedupedIff | src/ati_evn/alerts/dedupe.py:27-38 | an alert is deduped exactly when one with its key, created within the window, is dispatched or batched, and then to the latest created |
| AlertLosses.BatchCountsSeverities | src/ati_evn/alerts/batcher.py:39-55 | for each severity the batch counts exactly its members of that severity |
| AlertLosses.BatchesRecordMessages | src/ati_evn/telegram/bot_alert.py:111-143 | in every reachable state a batch has the time of exactly its accepted message, and rows of its own customer only |
| AlertGaps.SilencedAlertIsDelivered | src/ati_evn/telegram/bot_alert.py:111-143 | a reachable queue and a poll that delivers two silenced alerts |
| AlertGaps.EarlyRetryInBatch | src/ati_evn/alerts/batcher.py:28-33 | a reachable queue and a poll that delivers a row in a batch before its retry time |
| AlertGaps.DeliveredTwiceIff | src/ati_evn/alerts/dedupe.py:27-38 | an alert queued within the window of a row with its key can be delivered besides it exactly when nothing with the key is out at that moment and the row is still pending, or was delivered and acknowledged |
| AlertGaps.SameKeyDeliveredTwice | src/ati_evn/alerts/dedupe.py:27-38 | a run that delivers two alerts with one key and one creation time, for any settings |
| AlertTicks.TickIsARun | src/ati_evn/telegram/bot_alert.py:162-217 | one poll is a run of the atomic actions, so what holds of all runs holds of the loop |
| AlertTicks.TickKeepsInv | src/ati_evn/telegram/bot_alert.py:162-217 | one poll keeps the invariant of the queue |
| AlertTicks.PollTakesOldestDue | src/ati_evn/telegram/bot_alert.py:166-174 | a poll takes due rows only, oldest first, and a due row left for later is not older than the fifty taken |
| AlertTicks.CustomersIff | src/ati_evn/telegram/bot_alert.py:176-180 | a poll serves exactly the customers of the alerts it found due |
| DedupeKey.KeyIdentifiesAlert | src/ati_evn/alerts/dedupe.py:21-24 | the key text determines customer, lower-cased indicator and asset, though indicators may contain colons; no asset and asset 0 are the same |
| FeedWindow.FetchCoversWindowIff | src/ati_evn/fetchers/scheduler.py:178-179 | the hours fetched reach back to the window start exactly when the window is at most 168 hours |
| FeedWindow.FetchIsTight | src/ati_evn/fetchers/scheduler.py:178-179 | the fetch exceeds the window by an hour at most, with one hour below and 168 hours above the range |
| FeedWindow.RunsReachJustFarEnough | src/ati_evn/fetchers/scheduler.py:169-225 | over every history, a run with a window under a week reaches back to the buffer before the completion of an earlier success, or to the default window, and an hour further at most |
| FeedWindow.WindowIsFromLastSuccess | src/ati_evn/fetchers/scheduler.py:169-177 | a feed without a success has the default window, any other the buffer before its last success |
| FeedWindow.FeedScheduler.GetLastSuccess | src/ati_evn/fetchers/scheduler.py:67-75 | the completion time of the success that started last |
| FeedWindow.FeedScheduler.BeginRun | src/ati_evn/fetchers/scheduler.py:169-179 | a run takes its window from the last success, or the first-time default, and its hours from the window; `FetchIsTight` bounds them from both sides |
| FeedWindow.FeedScheduler.RecordRun | src/ati_evn/fetchers/scheduler.py:98-122 | ending a run records its status and completion time and leaves the other runs alone |
| FeedWindow.HistoryKeepsInv | src/ati_evn/fetchers/scheduler.py:169-225 | along every history each success that started earlier either ended after a run began or is no later than the success the run took its window from |
| FeedWindow.SuccessesLeaveNoGapIff | src/ati_evn/fetchers/scheduler.py:169-225 | the times covered by successful fetches that take at most the buffer form one interval exactly when no two neighbouring ones start more than 168 hours apart, whatever failed, was skipped or overlapped |
| FeedWindow.ReachesPredecessorIff | src/ati_evn/fetchers/scheduler.py:169-179 | a fetch reaches back to the start of the success before it exactly when that is at most 168 hours ago |
| FeedWindow.LatePauseLeavesGap | src/ati_evn/fetchers/scheduler.py:178-179 | for every pause a reachable history of two successes, with a gap exactly when the pause exceeds 168 hours |
| FeedWindow.ConsecutiveFailureCount | src/ati_evn/fetchers/scheduler.py:78-95 | the loop counts the failures before the first success among the ten newest runs |
| FeedWindow.CountIsOfFailures | src/ati_evn/fetchers/scheduler.py:78-95 | the count is the number of failures before the first success; skipped runs neither count nor end it |
| FeedWindow.TenRunsSufficeIff | src/ati_evn/fetchers/scheduler.py:78-95 | that count is the number of failures since the last success exactly when the success is among the ten or no older failure follows it |
| FeedWindow.LongFailureIsCountedAsTen | src/ati_evn/fetchers/scheduler.py:78-95 | more than ten failures in a row are counted as ten |
| Ingest.Pipeline.IngestRawIocs | src/ati_evn/ingest/pipeline.py:205-248 | rows and statistics after a batch are those of the specified fold |
| Ingest.Pipeline.FindRecentDetection | src/ati_evn/ingest/pipeline.py:110-123 | a repeat within the window that no other repeat was created after, and one whenever there is any |
| Ingest.DetectionsStaySpaced | src/ati_evn/ingest/pipeline.py:205-239 | over any batches, two detections of one (source, type, value) are more than the window apart, repetitions inside a batch included |
| Ingest.IngestIsAccounted | src/ati_evn/ingest/pipeline.py:42-56 | inserted, deduped and rejected add up to the input, and both counters sum to inserted |
| Ingest.RowAfterRaw | src/ati_evn/ingest/pipeline.py:214-239 | what one indicator does to the table: nothing when rejected, else it sets the last-seen time of its repeat or writes one row of its source, type and accepted value; all other rows stay |
| Ingest.CountersAreOfNewRows | src/ati_evn/ingest/pipeline.py:42-56 | for each source and each type the counter is the number of rows of that source or type written by the call |
| Ingest.RejectedAreCounted | src/ati_evn/ingest/pipeline.py:214-221 | rejected counts exactly the indicators that are not accepted |
| Ingest.NothingAcceptedIsLost | src/ati_evn/ingest/pipeline.py:214-239 | every accepted indicator has a detection created within the window |
| Ingest.IngestStats.Merge | src/ati_evn/ingest/pipeline.py:58-65 | merging adds all counts key by key, also into itself |
| Ingest.AddCounters | src/ati_evn/ingest/pipeline.py:62-65 | the result of the merge loop counts for each key what the two counters count together |
| Ingest.MergeKeepsBalance | src/ati_evn/ingest/pipeline.py:58-65 | after a merge the counters still sum to inserted |
| FindingMerge.FindingStore.UpsertFinding | src/ati_evn/match/finding_merger.py:44-92 | the store after one upsert, and the finding the detection is linked to |
| FindingMerge.FindingsSummarizeSightings | src/ati_evn/match/finding_merger.py:48-84 | one finding per (customer, type, value), with the maximum severity, a duplicate-free source list equal to all sighting sources, and their number |
| FindingMerge.SummaryIsOrderFree | src/ati_evn/match/finding_merger.py:48-84 | permuting the sightings changes no finding's severity, source set or count |
| FindingMerge.LastSeenIs | src/ati_evn/match/finding_merger.py:86 | a finding has the last-seen time of the latest sighting after its first that has one, else that of its creation |
| FindingMerge.CountsAsCreatedIff | src/ati_evn/match/customer_router.py:168-176 | the source-count test holds exactly when no other source has reported the key, so it is wrong exactly for a repeat by the only source so far |
| FindingMerge.RepeatBySameSourceCountsTwice | src/ati_evn/match/customer_router.py:168-176 | two sightings by one source make one finding counted as created twice |
| Routing.BestPerCustomer | src/ati_evn/match/customer_router.py:60-66 | the loop keeps the best match of each customer in dict order |
| Routing.BestIsSelection | src/ati_evn/match/customer_router.py:60-66 | the result has one match for exactly the matched customers, each the first of its customer's highest confidence |
| Routing.TopAttainsMaximum | src/ati_evn/match/customer_router.py:185-190 | the detection's top match is a match that no match of any customer beats |
| Routing.LinkAgreesIff | src/ati_evn/match/customer_router.py:142-190 | the linked finding is of the detection's customer exactly when the match merged last is the top match |
| Routing.LinkIsToLastMerged | src/ati_evn/match/finding_merger.py:91-92 | a detection is linked to the finding of the customer merged last, and to none exactly when none was merged |
| Routing.LinkedToOtherCustomer | src/ati_evn/match/customer_router.py:142-190 | any detection matched by two customers, the first one better, is linked to the second one's finding |
| Routing.RunAllStrategies | src/ati_evn/match/customer_router.py:47-57 | the results of the strategies that do not raise, in order |
| Routing.EveryStrategyContributes | src/ati_evn/match/customer_router.py:47-57 | each strategy's matches are in the results, in place and nothing besides them; one that raises takes nothing from the others |
| Routing.Router.RouteDetections | src/ati_evn/match/customer_router.py:124-190 | counters, findings, new findings and detection updates, the linked finding included, of a pass are those specified |
| Routing.PassIsAccounted | src/ati_evn/match/customer_router.py:124-183 | processed is matched plus unmatched, and the per-strategy counts sum to the outcomes plus caught errors |
| Routing.PassKeepsView | src/ati_evn/match/customer_router.py:142-176 | a pass leaves one finding per key, each the summary of the earlier sightings and of the sightings of the pass, and counts each of the latter as created or merged |
| Routing.PassSightingsAreMerged | src/ati_evn/match/customer_router.py:142-168 | the sightings of a pass are those of the selected matches of its detections that are neither false positives nor probable nor raise, and no others |
| Routing.CreationsAreNewReports | src/ati_evn/match/customer_router.py:168-173 | a finding is listed as new once per sighting of the pass before which no other source had reported it |
| RoutingOutcomes.OutcomesAreCounted | src/ati_evn/match/customer_router.py:133-183 | false positives, probable exposures and caught errors are counted for exactly the selected matches that end so, matched and unmatched for exactly the detections with and without a match |
| RoutingOutcomes.StrategiesAreCounted | src/ati_evn/match/customer_router.py:142-143 | every selected match is counted once under its strategy, in dry runs too |
| RoutingOutcomes.DryRunChangesNothing | src/ati_evn/match/customer_router.py:133-146 | a dry run leaves findings and detections alone, lists nothing, and counts only matches and strategies |
| RoutingOutcomes.UpdatesAre | src/ati_evn/match/customer_router.py:133-190 | a detection is marked unmatched exactly when no strategy matches it, and otherwise routed to a match that none beats |
| RoutingOutcomes.NewFindingsAreListed | src/ati_evn/match/customer_router.py:168-174 | the new findings of a pass are, in order, those of its merges before which no other source had reported the key, each with the asset of the last such merge |
| RoutingOutcomes.MergedMatchIsRecorded | src/ati_evn/match/customer_router.py:162-168 | a merged match is recorded in the finding of its customer and the detection's indicator: a new one has its severity and source, an old one the higher severity, its source and the time last seen |
| AlertEnqueue.EnqueueNew | src/ati_evn/match/customer_router.py:231-256 | one new row per listed finding that the rule lets through, with its dedupe key, deduped to what was out before the pass or pending |
| AlertEnqueue.QueuedKeysAgreeIff | src/ati_evn/match/customer_router.py:239-253 | two queued findings get one dedupe key exactly for the same customer, indicator text and asset, whatever the indicator types; each alert goes to its finding's customer |
| AlertEnqueue.RuleIsOnSightings | src/ati_evn/alerts/dispatch_rule.py:13-18 | the rule holds exactly when some sighting is high or above, or one is medium and there are two sources |
| AlertEnqueue.TimesQueued | src/ati_evn/match/customer_router.py:168-256 | how often a pass queues each finding, from the sightings alone |
| AlertEnqueue.QueuedIff | src/ati_evn/match/customer_router.py:168-256 | a finding reported in the pass is queued exactly when no source but that of its first sighting in the pass had reported it before, and its sightings warrant an alert |
| AlertEnqueue.RepeatIsQueuedTwice | src/ati_evn/match/customer_router.py:168-256 | any finding of high severity reported twice by one source in a pass is queued twice |
| AlertEnqueue.SecondSourceIsNotQueued | src/ati_evn/match/customer_router.py:168-256 | any medium finding confirmed by a second source in a later pass passes the rule but is not queued, even when it is critical by then |
| LookupScore.LookupIsExact | src/ati_evn/enrichment_v2/scoring.py:122-129 | at a key the score is exactly the table's, in both modes, for keys at least 1e-9 apart |
| LookupScore.FirstKeyCounts | src/ati_evn/enrichment_v2/scoring.py:91-97 | of several keys within 1e-9 of a value the first in the table counts, for every table |
| LookupScore.LookupClamps | src/ati_evn/enrichment_v2/scoring.py:122-125 | outside the keys the score is that of the nearest key |
| LookupScore.LookupInside | src/ati_evn/enrichment_v2/scoring.py:127-140 | strictly between neighbouring keys the result is the score of a key within 1e-9, else the lower score or the interpolated one |
| LookupScore.LookupIsLinear | src/ati_evn/enrichment_v2/scoring.py:131-140 | 1e-9 and more from both neighbouring keys the interpolated score lies on the straight line through the two |
| LookupScore.NothingToLookUp | src/ati_evn/enrichment_v2/scoring.py:100-120 | without a table or a number the score is 0 |
| LookupScore.JustBelowKeyTakesItsScore | src/ati_evn/enrichment_v2/scoring.py:127-129 | with keys 0 and 1, values less than 1e-9 below 1 take the score of 1, all others between them that of 0 |
| LookupScore.LookupStaysBetweenNeighbours | src/ati_evn/enrichment_v2/scoring.py:127-140 | between neighbouring keys the result stays between their scores |
| LookupScore.LocateNeverFails | src/ati_evn/enrichment_v2/scoring.py:131-142 | for a nonempty table the final `return 0.0` is never reached |
| LookupScore.LookupIsMonotone | src/ati_evn/enrichment_v2/scoring.py:100-142 | when scores ascend with keys, the result ascends with the signal, in both modes |
| RiskAggregate.ComputeAggregate | src/ati_evn/enrichment_v2/aggregator.py:68-136 | the loop and the final arithmetic give the specified aggregate |
| RiskAggregate.RiskIsScaledMean | src/ati_evn/enrichment_v2/aggregator.py:72-79 | scores between two bounds give a risk between the bounds scaled by the total weight, however few providers gave a verdict |
| RiskAggregate.RiskKeepsScaleIff | src/ati_evn/enrichment_v2/aggregator.py:79-120 | the risk stays on the 0 to 100 scale for all rows exactly when the weights add up to at most 1 |
| RiskAggregate.VerdictMovesRisk | src/ati_evn/enrichment_v2/aggregator.py:97-118 | one more verdict moves the risk strictly towards that provider's score and never reaches or passes it |
| RiskAggregate.VerdictShiftsRisk | src/ati_evn/enrichment_v2/aggregator.py:97-120 | how far: the risk is shifted in proportion to that provider's weight among the weights of exactly the configured providers whose verdict counts |
| RiskAggregate.OneVerdictIsScaled | src/ati_evn/enrichment_v2/aggregator.py:97-120 | a single verdict gives its score times the total weight, a row without one gives 0 |
| RiskAggregate.MissingScoreIsZero | src/ati_evn/enrichment_v2/aggregator.py:97-103 | a row without a score changes the aggregate like one with the score 0 |
| RiskAggregate.MaxIsGreatest | src/ati_evn/enrichment_v2/aggregator.py:102-103 | the maximum is attained by a row with a verdict, or is 0, and no such row is above it |
| RiskAggregate.CountsAreBounded | src/ati_evn/enrichment_v2/aggregator.py:105-123 | positive, supporting, responded and enabled are in ascending order, the ratios stay in [0, 1], and coverage is 1 exactly when every configured provider was asked |
| RiskAggregate.CountsAre | src/ati_evn/enrichment_v2/aggregator.py:84-123 | responded, positive and supporting count the rows of configured providers, those that say malicious, and those that say malicious or suspicious; confidence is the share of the malicious ones, coverage that of the responded |
| RiskAggregate.LabelsAre | src/ati_evn/enrichment_v2/aggregator.py:84-103 | each responded provider has its verdict, or unknown for none, and a verdict that counts keeps its score within the maximum |
| RiskAggregate.AggregateIsOrderFree | src/ati_evn/enrichment_v2/aggregator.py:68-136 | the order of the rows changes nothing in the aggregate |
| RiskAggregate.ConsensusIff | src/ati_evn/enrichment_v2/aggregator.py:31-65 | disputed exactly when one configured provider says malicious and one benign, partial exactly when one says suspicious and none malicious, whatever the scores and weights |
| RiskAggregate.SuspiciousAloneIsPartial | src/ati_evn/enrichment_v2/aggregator.py:31-65 | a lone suspicious verdict is partial consensus |
| RiskAggregate.SuspiciousAndMaliciousAgree | src/ati_evn/enrichment_v2/aggregator.py:31-65 | a suspicious and a malicious verdict are consensus |
| JsonBraces.FindBalancedBraces | src/ati_evn/llm/json_extract.py:19-31 | a slice exactly when a balanced block starts at the first opening character, and then that block |
| JsonBraces.FirstBlockIsUnique | src/ati_evn/llm/json_extract.py:19-31 | at most one slice qualifies |
| JsonBraces.ScanRecoversPrintedTree | src/ati_evn/llm/json_extract.py:19-31 | scanning noise, a printed bracket tree and any text returns exactly the printed tree |
| JsonBraces.ScanReturnsPrintedTree | src/ati_evn/llm/json_extract.py:19-31 | whatever is returned is the printed form of a bracket tree |
| JsonBraces.BlockComesBackWholeIff | src/ati_evn/llm/json_extract.py:27-30 | a bracketed text comes back whole exactly when brackets nest in all of its inside |
| JsonBraces.BraceInStringCutsObject | src/ati_evn/llm/json_extract.py:27-30 | a closing brace inside a string literal cuts the object short |
| JsonExtract.ExtractJsonAny | src/ati_evn/llm/json_extract.py:39-66 | the result is that of the first tier that parses, with the scanned blocks being the first balanced ones |
| JsonExtract.FirstTierDecides | src/ati_evn/llm/json_extract.py:39-65 | the result is the whole text, else what stands in a fence, else the first object, else the first list, whichever parses first |
| JsonExtract.FencedValueComesBack | src/ati_evn/llm/json_extract.py:48-54 | a value in a fence comes back whatever stands around it, as a list or object exactly when it is one |
| JsonExtract.ListComesBackIff | src/ati_evn/llm/json_extract.py:57-64 | a printed list between other text comes back exactly when the text has no balanced object or its first one does not parse, and asking for a list fails otherwise |
| JsonExtract.ObjectComesBack | src/ati_evn/llm/json_extract.py:57-64 | a printed object between other text comes back |
| JsonExtract.ListOfObjectsIsLost | src/ati_evn/llm/json_extract.py:57-86 | a list of objects between other text yields its first object, and asking for a list fails |
| JsonExtract.EmptyObjectInListIsLost | src/ati_evn/llm/json_extract.py:57-86 | the same at one text |
| DomainMatch.MatchIsLabelSuffix | src/ati_evn/match/domain_utils.py:23-44 | a match exactly when the customer's labels are a suffix of the IOC's, exact exactly when they are equal |
| DomainMatch.MatchIsPartialOrder | src/ati_evn/match/domain_utils.py:27-44 | matching is reflexive on nonempty normal forms, antisymmetric up to normal form, and transitive |
| DomainMatch.MatchedByOneHostAreComparable | src/ati_evn/match/domain_utils.py:27-44 | two customer domains matched by one host are themselves comparable |
| DomainMatch.NormalFormIff | src/ati_evn/match/domain_utils.py:23-24 | the normal form is the cleaned name without all the dots at its end, and nothing else |

## Left out

- HTTP clients, Telegram, the language model, tool bodies, database sessions and configuration loading: only their outcomes enter, as parameters.
- Exceptions other than Telegram API errors inside a poll, crashes between a send and its commit, and acknowledgements in the middle of a poll: a poll is atomic apart from its send outcomes.
- Database row order among equal timestamps: ties are broken by row id (Poll) or by the later row (FindRecent); dedupe targets and last successes may be any of the tied rows.
- The statistics dictionary of the dispatch loop, message texts, and the trace of tool calls.
- An entity that disappears or is silenced within a poll: whether a row's entity exists and is silenced is read once per poll.
- Tool names that contain the text the loop looks for: of the two refusals only the one for a missing pending call has it.
- The dispatch time, message id and last error of a single alert: written, never read by the modelled code.
- URL and indicator normalisation and the sanity checks (`_normalize_ioc_value`, `_passes_sanity_check`): one arbitrary function; its regular expressions are not modelled.
- The chunked upserts of CVE maps: plumbing around one SQL statement.
- `upsert_probable_exposure` beyond its count, and finding titles.
- `_bulk_ingest_check`, the single-source filter and `persist_campaigns`: threshold tests and row copying around the clustering.
- The text of `provider_mask`, and storing the aggregate: formatting and one upsert.
- `_f_bucket`, `_f_composite` and the other scoring formulas and provider verdicts: single-expression arithmetic and constant thresholds.
- JSON parsing, and the regular expression that strips markdown fences: arbitrary functions.
- Non-numeric keys or signals other than by the missing value: the lookup table's keys are numbers here.
- Nested values in tool arguments: arguments are null, booleans, integers or strings.
- CampaignConfidence.Confidence: does not model the rounding of the stored score to three digits.
- RiskAggregate.ComputeAggregate: does not model the rounding of the stored scores and ratios.
- `src/ati_evn/agent/loop/react.py` and the runner's retry: not part of this model.
