# Motor de detecção: a verified model

A Dafny model of the transaction detection engine and proofs of what it promises: the worker pool,
the `Processor` the workers share, the in-memory stores, rule evaluation and scoring, configuration
reload, and the two HTTP entry points that wait for results.

Check the whole project with `dafny verify dfyconfig.toml`.

## How it is built

**One call, written three ways.** A `Process` call is a sequence of separately locked actions: look up
the key, record in the window, read the configuration, read the risk profile, read the window for each
rule (up to three reads), look up or fill the compile cache, publish, mark.

- `Processing` says what one uninterrupted call does to the stores (`Process`). `Guarantees`, `Verdicts`,
  `Attempts`, `Retries`, `Outages`, `OutageAlerts` and `AlertContents` prove what that means, `RuleOrder` what
  the evaluation loop selects, `Conditions` what a condition sees, `DefaultRules` what the shipped bundle alerts on.
- `Steps` cuts the same call at every action (`Act`), with the shared compile cache.
- `Processor`, `Evaluator`, `WindowStore`, `IdempotencyStore`, `AlertSink`, `Config` and `Metrics`
  contain the objects themselves, updated in place, each method proved against its specification.

**What an action observes.** A `Job` carries, for every action of its run, an `Observation`: the clock,
the window switch, the active rule set, the stored risk profile, whether the port returns another error,
whether the action panics. The theorems hold for all observations. In `Engine` an action is enabled
only when its observation agrees with the engine's own clock, switch and configuration, so every real
interleaving is a run of the model and two runs can be compared observation by observation.

**Concurrency.** `Dispatch` is the pool as a step system of bounded FIFO queues, `Pool` the object with
the same moves. `Engine` composes pool, calls in progress, shared stores, cache, configuration, switch
and clock; `EngineRuns`, `EngineAlerts`, `EngineMarks`, `EngineOutcomes`, `EngineEntries`, `EngineOnce`,
`EngineWindows`, `EngineCounts` and `EngineSafety` prove what holds in every reachable state. Of these only
`EngineRuns` and the second half of `EngineAlerts`, which compare with the cache-free call, need the discipline on
versions; the others hold whatever the cache holds. `Batch` and `SingleRequest` are the two HTTP
handlers with the closures the workers run for them, on a pool that other requests use too.

**Main results.**

1. *Reduction.* Under any interleaving, each customer's verdicts, marks, window, log and alerts are
   those of running that customer's jobs one at a time in submission order, with no cache
   (`EngineRuns.Reduction`, `EngineRuns.DrainedEqualsSequential`).
2. *At most once.* Seen and Mark are separate actions, yet two fresh verdicts on one key are more than 24
   hours apart (`EngineMarks.AtMostOncePerDay`), and a verdict is a duplicate exactly if it looked no later
   than 24 hours after the mark of an earlier one (`EngineMarks.DuplicateForADay`); without the routing both
   calls process the transaction (`Unrouted.BothProcess`).
3. *Windows.* What a query sees, exactly, against the history that is never evicted
   (`EngineWindows.QueriesSeeCutHistory`), and what the three counts of one call add up to although other
   workers move between its reads (`EngineCounts.ReadCountsAddUp`).
4. *Degradation.* Outages in any pattern leave a sub-list of the hits and never fail a call
   (`RuleEvaluation.DegradationIsSubRun`, `Outages.OutageNeverFails`).
5. *Score and order.* Dominance, bounds, permutation, movement, what alerts at the default threshold; and
   permuting the rules, each keeping its readings, changes neither hits nor score nor decision
   (`RuleOrder.RuleOrderIrrelevant`).
6. *Reload and cache.* No run fails on its configuration (`EngineSafety.AlwaysSafe`); the cache is
   transparent exactly under a discipline on versions (`ProgramCache.TransparentExactly`).
7. *Attempts.* Entries and alerts are counted by the fate of the attempts that left them
   (`EngineEntries.EntriesAreAttempts`, `EngineRuns.AlertsOfAttempts`); when entries equal fresh verdicts and when
   there is at most one alert is characterised (`Attempts.EntriesExactly`, `Retries.AtMostOneAlertExactly`,
   `Retries.OneAlertByFirst`); where nothing goes wrong there is one entry (`EngineOnce.OnceInTheWindow`).
8. *Alerts.* At any threshold a fresh verdict alerts exactly if the hits' score reaches it, and the alert says
   exactly what the hits are (`AlertContents.VerdictExactly`, `EngineAlerts.AlertsExactly`). A rule hits exactly if
   its condition matches on this transaction, this customer's risk and the window read for it
   (`Conditions.HitsExactly`); so the default bundle alerts exactly on a pix burst, an amount over the limit, a far
   transaction or a second device (`DefaultRules.DefaultBundleAlerts`).
9. *Batch.* No interleaving is stuck, every run is bounded, every item is accounted for (`Batch.EveryRun`).

**Conditions that the code needs**, each with the input that shows why:

- Idempotency keys: two customers' calls leave each other's verdicts alone exactly when neither id plus a
  colon begins the other (`KeyCollisions.IndependentExactly`); colon-free ids do. Otherwise a transaction
  can be swallowed as another customer's duplicate (`Domain.ColonCollides`, `Guarantees.MistakenDuplicate`).
- Alert preimages: the same with `|` (`AlertId.PreimageCollision`).
- Compile cache: transparent exactly when equal `(rule_id, version)` among the rules ever activated implies
  equal compilation (`ProgramCache.TransparentExactly`). Validation does not enforce it: two valid bundles,
  reloaded one over the other, after which a call runs the old program (`StaleCache.StaleAfterReload`).
- Spans: up to 9223372036 s a duration does not wrap. Beyond, the bucket width is zero exactly when the
  wrapped span lies strictly between 0 and 1 s, which a span that validation accepts can reach, and then
  the call panics (`AlertId.ZeroWidth`, `AlertId.ZeroWidthHappens`, `Retries.WideSpanPanics`). A query reaches back
  as far as the wrapped span says, except that -2^63 is its own negative and sees everything
  (`RuleEvaluation.ReachAtTheEdge`).

**Where code and documentation differ**, the model follows the code:

- The comment above `Score` says several lower-severity hits push the score up; adding a hit below the
  mean lowers it (`Scoring.ScoreMovement`, `Scoring.LowerHitAddedToEqualHits`).
- The comment above `alertID` speaks of the highest-severity rule *that declares a window*; the code takes
  the last rule of highest severity, window or not. `AlertId.CommentFails` is an input where the widths
  differ, `AlertId.CommentHoldsExactly` says when they agree.
- docs/proposta-motor-deteccao-transacoes.md:126 wants the window TTL to be at least the longest span; the
  TTL is 600 s and a default rule asks for 3600 s. Answers are complete exactly for spans within the TTL
  (`WindowStore.NeverLosesExactly`); `WindowStore.HourlyRuleMisses` is an input where that rule misses.
- The requirements document in docs wants the transaction in the window exactly once and no alert twice. A
  call that fails after Record leaves its entry, one that fails at Mark also its alert, and the retry adds
  another (`Retries.RetryRun`). Entries are as many as fresh verdicts exactly under the condition of
  `Attempts.EntriesExactly`. Within a day there is at most one alert exactly when no attempt that published and
  failed at Mark is followed by another that publishes (`Retries.AtMostOneAlertExactly`); for attempts that
  publish whenever they find their key free, exactly when the first marks or is alone (`Retries.OneAlertByFirst`).
- The same document has one atomic check-and-mark; the code has two actions.
- It also wants monotone versions and an enumeration of categories; validation checks neither
  (`Config.VersionAndCategoryUnchecked`).
- An outage can raise an alert that would otherwise not be raised. For which calls: `Outages.OutageRaisesExactly`;
  for which rule sets, for some meaning of the conditions: `OutageAlerts.MisleadsExactly`.

## Model

| member | source | states |
|---|---|---|
| Domain.Validate | internal/domain/transaction.go:46-66 | a transaction is accepted exactly when all six demands on it hold, and an error names a demand that does not |
| Domain.KeyInjective | internal/domain/transaction.go:69-71 | for customers whose ids cannot be confused, two transactions have one key iff customer and transaction ids are equal |
| Domain.ColonCollides | internal/domain/transaction.go:69-71 | a concrete pair of different transactions of different customers with the same key |
| Sequences.JoinCollision | internal/domain/transaction.go:69-71 | two different customers can share a key, by some non-empty transaction ids, iff one id plus the separator begins the other |
| KeyCollisions.IndependentExactly | internal/domain/transaction.go:69-71 | a first call of one customer never changes how another's call ends iff neither id plus a colon begins the other |
| Scoring.Score | internal/engine/score.go:23-39 | the loop computes the exact rational score of the list |
| Scoring.WeightIsRank | internal/engine/score.go:7-17 | the weight of every severity is a quarter of its rank, zero for an unknown one |
| Scoring.ScoreExactly | internal/engine/score.go:7-39 | the score from how often each severity occurs: seven tenths of the worst rank and three tenths of the mean rank, at a quarter for each rank |
| Scoring.ScoreBounds | internal/engine/score.go:23-39 | between 0.7 of a quarter of the worst rank plus 0.075, reached iff all hits are baixa, and a quarter of the worst rank, reached iff all hits are equal |
| Scoring.ScoreDominance | internal/engine/score.go:19-22 | a strictly lower worst severity gives a strictly lower score, whatever the lists |
| Scoring.ScorePermutation | internal/engine/score.go:23-39 | the score is invariant under permutation |
| Scoring.ScoreMovement | internal/engine/score.go:19-39 | a hit no worse than the worst moves the score up iff above the mean, down iff below |
| Scoring.LowerHitAddedToEqualHits | internal/engine/score.go:19-22 | a lower hit beside equal ones always lowers the score, against the comment |
| Scoring.DefaultThreshold | internal/config/default_profile.json:4 | the score of a list reaches 0.5 iff some hit is alta or critica, or it is non-empty and all media |
| WindowStore.MaxKmIsMaximum | internal/adapters/memory/window_store.go:80-89 | the distance is an upper bound over other transactions in span, attained unless zero |
| WindowStore.ReplayIsCutHistory | internal/adapters/memory/window_store.go:46-55 | the window is the never-evicted history cut at the last eviction |
| WindowStore.QueryRange | internal/adapters/memory/window_store.go:57-107 | a query ranges over exactly the entries recorded after both the last eviction's cutoff and its own |
| WindowStore.SpanWithinTtl | internal/adapters/memory/window_store.go:57-107 | for spans within the TTL eviction is invisible to queries |
| WindowStore.QueryExact | internal/adapters/memory/window_store.go:57-107 | the answer is the never-evicted one iff no entry in span was older than the TTL at the last eviction |
| WindowStore.LongSpanSeesTtl | internal/config/default_rules.json:32 | a span longer than the TTL by the time since the last eviction sees the whole window and nothing more |
| WindowStore.LongSpanLoses | internal/adapters/memory/window_store.go:123-133 | for every span above the TTL, a log and a time at which a count is 1 where the history has 2 |
| WindowStore.NeverLosesExactly | docs/proposta-motor-deteccao-transacoes.md:126 | over all logs and times queries see the never-evicted entries in span iff the span is within the TTL |
| WindowStore.HourlyRuleMisses | internal/config/default_rules.json:27-35 | at 600 s and 3600 s, a log where a transaction over 100 km away and in span is missed |
| WindowStore.HistorySorted | internal/adapters/memory/window_store.go:53 | under a clock that does not run backwards entries are in the order of their stamps |
| WindowStore.EvictionDropsPrefix | internal/adapters/memory/window_store.go:123-133 | from any sorted entries a cutoff removes a prefix, all of it expired |
| WindowStore.WindowEvictsPrefix | internal/adapters/memory/window_store.go:46-55 | every window that Records under a clock not running backwards build is sorted, and what an eviction or query cutoff takes off it is a prefix |
| WindowStore.CountsBetween | internal/adapters/memory/window_store.go:57-71 | channel counts as of three non-decreasing cutoffs add up to between the entries after the last and after the first |
| WindowStore.ChannelsPartition | internal/adapters/memory/window_store.go:57-107 | over known channels the three counts add up to the entries, and bound the distinct devices |
| WindowStore.Store.CompactInPlace | internal/adapters/memory/window_store.go:123-133 | writing survivors to the front of the array being read yields the stable filter of the original entries and leaves the rest of the array alone |
| WindowStore.Store.Evict | internal/adapters/memory/window_store.go:123-133 | the customer keeps exactly the unexpired entries, a suffix of a sorted window; other customers' windows are untouched |
| WindowStore.Store.Record | internal/adapters/memory/window_store.go:46-55 | down: an error and no change; up: unexpired entries then the new one, sorted if stamps were; other customers untouched |
| WindowStore.Store.CountByChannel | internal/adapters/memory/window_store.go:57-71 | the number of positions of the customer's entries in span that are on the channel, or an error iff down |
| WindowStore.Store.MaxDistanceKm | internal/adapters/memory/window_store.go:73-90 | the greatest distance to another transaction in span, or an error iff down |
| WindowStore.Store.DistinctDeviceCount | internal/adapters/memory/window_store.go:92-107 | the number of entries in span with a non-empty device that no earlier entry in span has, or an error iff down |
| WindowStore.SeveralDevices | internal/adapters/memory/window_store.go:99-107 | more than one device is counted iff two entries have different non-empty ones |
| WindowStore.Store.SetDown | internal/adapters/memory/window_store.go:40-44 | the switch takes the given position |
| IdempotencyStore.Store.Seen | internal/adapters/memory/idempotency_store.go:28-41 | seen iff the key is held and now is not after its expiry; an expired key, and only that, is forgotten |
| IdempotencyStore.Store.Mark | internal/adapters/memory/idempotency_store.go:43-48 | the key expires one TTL from now, the others as before |
| AlertSink.Sink.Publish | internal/adapters/memory/alert_sink.go:24-27 | the log grows by this alert at its end |
| AlertSink.Sink.Alerts | internal/adapters/memory/alert_sink.go:42-48 | the alerts published so far, in order |
| Config.CheckProfile | internal/config/bundle.go:46-54 | no error iff the threshold is in [0,1] and the default limit is positive |
| Config.VersionAndCategoryUnchecked | internal/config/bundle.go:56-92 | a rule stays valid or invalid whatever its version, and whatever its non-empty category |
| Config.CheckRule | internal/config/bundle.go:56-92 | no error iff the id is non-empty and new, the severity known, category and condition are there, a required window has a spec, spans are positive and the condition compiles; a repeated id is what is reported as a duplicate |
| Config.Load | internal/config/bundle.go:18-44 | accepts exactly the valid bundles, unchanged, and never part of one |
| Config.ReloadSafety | internal/adapters/memory/config_provider.go:26-69 | over every run of staging and reloading from a valid bundle the active set is valid, is the last bundle swapped in, and has version one plus the number of swaps |
| Config.ConfigProvider.Current | internal/adapters/memory/config_provider.go:33-37 | the active set |
| Config.ConfigProvider.SetOverride | internal/adapters/memory/config_provider.go:43-47 | stages the bundle and changes nothing else |
| Config.ConfigProvider.Reload | internal/adapters/memory/config_provider.go:49-69 | an error iff a staged bundle is invalid, and then neither active nor staged state changes; a valid one becomes active with the next version and is no longer staged |
| RuleEvaluation.SpanDoesNotWrap | internal/engine/evaluator.go:168 | spans up to 9223372036 s survive the conversion to a duration |
| RuleEvaluation.ReadsAreQueries | internal/engine/evaluator.go:167-194 | the reading taken for a condition is the distance, the device count, or each channel's count over the entries in span at its own read |
| RuleEvaluation.DegradedLoop | internal/engine/evaluator.go:68-113 | at any point of the loop outages leave a sub-list of the hits |
| RuleEvaluation.DegradationIsSubRun | internal/engine/evaluator.go:52-58 | outages in any pattern never make evaluation fail; what triggers is a sub-list that keeps every hit needing no window, and is everything if nothing was reported degraded |
| RuleEvaluation.UndegradedLoop | internal/engine/evaluator.go:68-113 | an evaluation that reports no degradation is the one with the store up throughout |
| RuleEvaluation.DownIgnoresWindow | internal/engine/evaluator.go:72-74 | with the window unavailable from the start its contents do not matter |
| Conditions.ConditionSees | internal/engine/evaluator.go:68-103 | an enabled rule whose reads go through runs its condition once, with the fields of the transaction, the risk iff it requires that layer and the reading of its window iff it requires that; it hits iff that matches, and errors are the compile and the run error |
| Conditions.StepFate | internal/engine/evaluator.go:69-91 | a rule that does not break is skipped iff disabled or without its window, degrades iff one of its reads found the store down, and otherwise has read everything and runs |
| Conditions.HitsExactly | internal/engine/evaluator.go:68-165 | in a whole call a rule hits iff it is enabled, its window is there if it needs it, and its condition matches on the transaction, the stored profile or else the default, and the window as Record left it |
| Conditions.PartialExactly | internal/pipeline/processor.go:123-131 | a fresh verdict is partial iff Record found the store down or a read due for an enabled window rule did |
| DefaultRules.ValorHits | internal/config/default_rules.json:11-18 | the value rule hits iff the amount exceeds the customer's limit, or 5000 without a profile |
| DefaultRules.DeviceHits | internal/config/default_rules.json:36-44 | the device rule hits iff it can read the window and two entries within 600 s have different devices |
| DefaultRules.DefaultHits | internal/config/default_rules.json:1-45 | which of the five default rules hit: burst, amount, distance and devices, and never the disabled one |
| DefaultRules.DefaultBundleAlerts | internal/config/default_profile.json:1-5 | with the default bundle a fresh verdict alerts iff one of the four enabled rules hits, alta iff a window rule does and media otherwise, with exactly the categories of those that hit |
| DefaultRules.CalmDefaultsSucceed | internal/pipeline/processor.go:83-184 | there is a library whose conditions mean what they say, and with it every call that finds the default bundle and that nothing goes wrong in reaches a fresh verdict |
| AlertId.RuleForHighestSeverity | internal/pipeline/processor.go:223-242 | the two loops compute the pick over the table of rules |
| AlertId.PickIsLastOfWorst | internal/pipeline/processor.go:223-242 | among hits that resolve, the pick is the last of maximal severity, window or not |
| AlertId.HitsAgree | internal/engine/evaluator.go:105-126 | for valid rules the accumulated severity, the score's maximum and the picked rule's severity are one, and every reference resolves |
| AlertId.SeveritiesAgree | internal/engine/evaluator.go:105-126 | the same for the hits of any completed evaluation of a validated rule set |
| AlertId.OrderIrrelevant | internal/engine/evaluator.go:105-126 | categories and score do not depend on the order of the hits, nor the severity when all are valid |
| RuleOrder.EvaluateSelects | internal/engine/evaluator.go:68-113 | evaluation completes iff no rule breaks on its own readings, and then the hits are the rules whose own step hits, in order |
| RuleOrder.RuleOrderIrrelevant | internal/engine/evaluator.go:68-126 | permuted rule lists, each rule keeping its readings, both complete or neither, with the same hits up to order, degradation, categories, score, severity and decision to alert |
| AlertId.PickDependsOnOrder | internal/pipeline/processor.go:236-239 | the pick does: of two equally severe rules the second is taken |
| AlertId.CommentHoldsExactly | internal/pipeline/processor.go:196-206 | the code's bucket width is the comment's iff the pick declares a window or the comment's width is 60 s, as it is when no hit declares one |
| AlertId.CommentFails | internal/pipeline/processor.go:196-206 | alta with 300 s before critica with none: 60 s in the code, 300 s by the comment, and different buckets |
| AlertId.BucketBounds | internal/pipeline/processor.go:213 | the bucket is a multiple of the width, less than a width from the capture time and between it and zero; the floor from 1970 on |
| AlertId.ZeroWidth | internal/pipeline/processor.go:202-213 | for a span that validation accepts the division is by zero iff the span wraps to strictly between 0 and 1 s |
| AlertId.ZeroWidthHappens | internal/pipeline/processor.go:202-213 | such a span exists |
| AlertId.WidthAsDeclared | internal/pipeline/processor.go:202-213 | up to 9223372036 s the width is the declared span |
| AlertId.PreimageInjective | internal/pipeline/processor.go:214-216 | for customers the bar keeps apart, the hashed text identifies customer, transaction and bucket |
| AlertId.PreimageCollision | internal/pipeline/processor.go:216 | two customers can share a preimage iff one id plus a bar begins the other |
| ProgramCache.ProgramKeyInjective | internal/engine/evaluator.go:130 | the key identifies id and version, whatever characters the id has |
| ProgramCache.AgreementIsDiscipline | internal/engine/evaluator.go:129-149 | no (id, version) has two compilations iff compilations are a function of the key |
| ProgramCache.CacheTransparent | internal/engine/evaluator.go:129-149 | under that discipline a lookup gives the compilation of the rule's own condition, and filling the cache keeps it so, also after a double miss |
| ProgramCache.TransparentExactly | internal/engine/evaluator.go:129-149 | whatever was looked up before, every lookup over the activated lists gives the rule's own compilation iff equal id and version imply equal compilation |
| StaleCache.StaleAfterReload | internal/config/bundle.go:56-92 | two valid bundles, the second reloaded over the first with one condition changed and the version kept: the next call alerts by the old program, and alone would not |
| Evaluator.Evaluator.ProgramFor | internal/engine/evaluator.go:129-149 | returns the compilation of the condition and keeps the cache coherent |
| Evaluator.Evaluator.ReadWindow | internal/engine/evaluator.go:167-194 | the reads of one rule, with the switch where each of them finds it, give the specified reading |
| Evaluator.Evaluator.EvaluateRule | internal/engine/evaluator.go:68-103 | one turn of the loop gives the specified verdict on the rule, which Conditions.ConditionSees states without the specification |
| Evaluator.Evaluator.Evaluate | internal/engine/evaluator.go:59-127 | the loop with its cache reports exactly what the cache-free specification computes, categories listed without repetition |
| Processing.FromMark | internal/pipeline/processor.go:137-142 | a verdict is returned iff the key was marked, and nothing else is touched |
| Processing.FromDecision | internal/pipeline/processor.go:133-183 | from the decision on: windows stay, the key is marked iff the verdict is fresh, the alert in the verdict is the one published, and it rests on a hit and a category |
| Guarantees.ProcessAppends | internal/pipeline/processor.go:96-113 | a call appends its own entry iff it gets through Record, whatever happens later, and touches no other customer's window |
| Guarantees.DuplicateIsInert | internal/pipeline/processor.go:101-104 | a duplicate verdict changes no store and is given only to a valid transaction whose key is held |
| Guarantees.FullVerdictAppends | internal/pipeline/processor.go:106-113 | a complete fresh verdict has recorded its transaction |
| Guarantees.ProcessMarks | internal/pipeline/processor.go:133-172 | a fresh verdict found its key free or expired and leaves it marked until 24 hours after its Mark; nothing else adds a mark, and only an expired one is removed |
| Guarantees.ProcessAlerts | internal/pipeline/processor.go:162-183 | a verdict publishes exactly the alert it carries |
| Guarantees.AlertsAreFounded | internal/pipeline/processor.go:150-160 | an alert is about the job's transaction, names a triggered rule and a category, and is partial iff the verdict is |
| Guarantees.MistakenDuplicate | internal/pipeline/processor.go:96-104 | where two keys collide the second transaction, within 24 hours of the first one's mark, is dropped as its duplicate |
| Verdicts.CallByParts | internal/pipeline/processor.go:133-183 | a call succeeds iff it decides, publishes what it decided on and marks; it publishes whether or not it then succeeds |
| Verdicts.DefaultThresholdVerdict | internal/pipeline/processor.go:133 | with a safe set at 0.5 a fresh verdict carries an alert iff some hit is alta or critica, or all of at least one are media |
| AlertContents.VerdictExactly | internal/pipeline/processor.go:133-160 | with a safe set at any threshold: a fresh verdict alerts iff something hit and the score reaches the threshold; the alert has the worst severity of the hits, exactly their categories, their score, their references in order, and the id of customer, transaction and slot |
| AlertContents.DecideSays | internal/pipeline/processor.go:133-219 | the same for any hits of a safe set |
| Verdicts.AlertIdsIdentify | internal/pipeline/processor.go:201-219 | published alerts share their id iff customer, transaction and bucket are the same, for customers the bar keeps apart, an injective hash and captures in the years 0 to 9999 |
| Attempts.SucceedsExactly | internal/pipeline/processor.go:115-183 | with a safe set and no run error, a call that gets through Record succeeds iff no action it gets to fails otherwise than by an outage |
| Attempts.EntriesByFate | internal/pipeline/processor.go:107-172 | entries for a key are its fresh verdicts that recorded plus its attempts that recorded and then failed |
| Attempts.EntriesExactly | internal/pipeline/processor.go:107-172 | with the window up at Record, safe sets and no run error in the attempts on a key, its entries equal fresh verdicts iff every attempt that recorded was unhampered afterwards |
| Attempts.ExactlyOneEntry | internal/pipeline/processor.go:96-113 | where nothing goes wrong for a key within a day there is exactly one entry and one fresh verdict once a valid attempt was made, however many follow |
| Retries.AlertsAreAttempts | internal/pipeline/processor.go:162-167 | alerts about a transaction are exactly the attempts at it that published |
| Retries.PublishedTwice | internal/pipeline/processor.go:162-172 | of two publishing attempts on one key, the first of them marking, the second looked over a day later |
| Retries.AtMostOneAlertExactly | internal/pipeline/processor.go:162-172 | within a day a transaction alerts at most once iff no attempt that published and failed at Mark is followed by another that publishes |
| Retries.OneAlertByFirst | internal/pipeline/processor.go:96-172 | of attempts within a day that publish whenever they find their key free, at most one alerts iff the first marks or is the only one |
| Retries.RetryRecordsAgain | internal/pipeline/processor.go:106-113 | after an attempt that recorded and failed, a retry records a second entry |
| Retries.RetryRun | internal/pipeline/processor.go:162-172 | a fault at Publish or Mark and a retry: one fresh verdict, two entries, and two alerts if the fault was at Mark |
| Retries.WideSpanPanics | internal/pipeline/processor.go:213 | a call hitting one critica rule with a window panics at the bucket iff the span wraps to less than a second |
| Guarantees.DefaultThresholdDecides | internal/pipeline/processor.go:133 | at 0.5 the call goes for an alert iff some hit is alta or critica, or all of at least one are media |
| Guarantees.RecordingsConserved | internal/pipeline/processor.go:107-122 | entries ever appended for a key are exactly the attempts on it that got through Record |
| Guarantees.OneEntryPerVerdict | internal/pipeline/processor.go:106-113 | where every call ends in a complete verdict there is exactly one entry per fresh verdict |
| Guarantees.MarkHeld | internal/adapters/memory/idempotency_store.go:28-48 | the mark of a fresh verdict is held until some later call looks after it ran out |
| Guarantees.AtMostOnce | internal/pipeline/processor.go:96-104 | run one after another, two fresh verdicts on one key are more than 24 hours apart |
| Guarantees.DuplicateForADay | internal/pipeline/processor.go:24-172 | to the nanosecond: after a fresh verdict and before the next on the key, a valid attempt is a duplicate iff it looks no later than 24 hours after the mark |
| Outages.CompleteVerdictIsHealthy | internal/pipeline/processor.go:123-131 | a verdict not marked partial, and its effects, are those of the call with the store up throughout |
| Outages.PartialNeedsOutage | internal/pipeline/processor.go:123-131 | a fresh verdict is partial only if some action found the store down |
| Outages.OutageNeverFails | internal/engine/evaluator.go:52-58 | a call that would reach a verdict with the store up reaches one under any pattern of outages |
| Outages.HitsShrink | internal/engine/evaluator.go:68-113 | for whole calls: under outages the evaluation completes when it would without, with a sub-list of the hits |
| Outages.OutageRaisesExactly | internal/pipeline/processor.go:123-133 | at 0.5, some pattern of outages makes a call alert that alerts on nothing with the store up iff some hit is media and every baixa hit needs the window |
| OutageAlerts.MisleadsExactly | internal/config/default_profile.json:4 | for a safe rule set at 0.5 whose enabled rules differ in condition, some meaning of the conditions lets an outage make a call alert iff it has an enabled media rule and an enabled baixa rule that needs the window |
| OutageAlerts.NeedsBaixaWindowRule | internal/pipeline/processor.go:133 | without such rules alerting under outages implies alerting without, whatever the conditions, transaction and stores |
| Steps.ActFinishes | internal/pipeline/processor.go:83-184 | no small step, with the cache, changes how the uninterrupted cache-free call would end |
| Steps.ActDisciplined | internal/engine/evaluator.go:129-149 | every step keeps the cache coherent |
| Locality.FinishLocal | internal/pipeline/processor.go:37-41 | how a call ends, and what its customer sees of it, depends only on what its customer sees |
| Locality.ActForeign | internal/pipeline/processor.go:37-41 | a step of one customer's call is invisible to a customer whose keys are apart |
| Processor.ComputeAlertId | internal/pipeline/processor.go:201-219 | the loops and the arithmetic give the specified id, or panic where the specification says |
| Processor.Processor.Process | internal/pipeline/processor.go:83-184 | the call over the mutable stores ends as specified and leaves every store holding what is specified, with the cache out of the picture; what a specified alert says is AlertContents.VerdictExactly |
| Dispatch.InvStep | internal/pipeline/dispatch/pool.go:52-91 | every step keeps each lane's finished, running and queued jobs in acceptance order, and queues within 64 |
| Dispatch.CustomerInOrder | internal/pipeline/dispatch/pool.go:26-28 | per customer finished, running and queued jobs are the submission order, and no other worker holds one |
| Dispatch.RunKeepsInv | internal/pipeline/dispatch/pool.go:77-91 | over every run what was accepted is what a Submit enqueued, and a job only ever dropped is nowhere in the pool |
| Dispatch.CloseProgress | internal/pipeline/dispatch/pool.go:99-106 | a closed pool always has a worker that can move until all have left |
| Dispatch.WorkerStepUsesLoad | internal/pipeline/dispatch/pool.go:52-57 | each move of a worker uses up load, so draining ends |
| Dispatch.CloseIsComplete | internal/pipeline/dispatch/pool.go:99-106 | when all workers have left each customer's accepted jobs have run exactly once, in order, panics included |
| Pool.Pool.constructor | internal/pipeline/dispatch/pool.go:39-50 | the asked number of workers or one, each with its own empty queue |
| Pool.Pool.Submit | internal/pipeline/dispatch/pool.go:83-91 | true iff the job is now at the end of its customer's queue; false leaves the pool as it was |
| Pool.Pool.RunWorker | internal/pipeline/dispatch/pool.go:52-75 | each move of a worker is an enabled step of the pool |
| Pool.Pool.Close | internal/pipeline/dispatch/pool.go:101-106 | whatever the workers' order it ends, with every worker gone and the customer's accepted jobs run once each in order |
| Engine.StructuredNext | internal/pipeline/dispatch/pool.go:52-91 | every step of the composed engine keeps pool, calls and outcomes consistent |
| Engine.ReducedNext | internal/pipeline/processor.go:83-184 | every step keeps every customer's results those of an uninterrupted run |
| EngineRuns.ColonFreeApart | internal/domain/transaction.go:69-71 | colon-free customer ids meet the condition of the reduction |
| EngineRuns.Reduction | internal/pipeline/processor.go:37-41 | in every reachable state a customer's finished jobs are a prefix of the accepted ones and their outcomes, marks, window, log and alerts are those of running them alone one by one; the job in flight will end the same way |
| EngineRuns.DrainedEqualsSequential | internal/pipeline/concurrency_test.go:15-24 | after the drained close the results are those of the sequential run over everything accepted |
| EngineRuns.AlertsOfAttempts | internal/pipeline/processor.go:162-172 | under any interleaving and the discipline on versions, between jobs, alerts about a transaction are the attempts that published; within a day at most one iff none that failed at Mark is followed by another |
| EngineAlerts.AlertsAreJustified | internal/pipeline/processor.go:133-160 | in every reachable state and whatever the cache holds, the alert of a finished call with a safe set says what some enabled rules of that set are, whose score reaches its threshold |
| EngineAlerts.AlertsExactly | internal/pipeline/processor.go:133-160 | under the discipline on versions: a finished fresh verdict alerts iff the rules that hit when the call is run alone reach the threshold, and says exactly what those are |
| EngineAlerts.DefaultAlertsExactly | internal/config/default_rules.json:1-45 | the same for the default bundle, in terms of amount, limit and the window the customer's earlier calls left |
| EngineEntries.EntriesAreAttempts | internal/pipeline/processor.go:106-172 | under any interleaving and whatever the cache holds, between a customer's jobs, entries for a key are the finished calls on it that got through Record: fresh verdicts that did plus calls that did and then failed |
| EngineOnce.OnceInTheWindow | internal/pipeline/processor.go:96-113 | where nothing goes wrong for a key within a day the drained engine has its transaction in the log exactly once, if a valid attempt was accepted, whatever else goes wrong and whatever the cache holds |
| EngineOutcomes.OutcomesExplained | internal/pipeline/processor.go:83-184 | in every reachable state a verdict has passed every action before it and its alert rests on a hit and a category, an error is one its action observed, a panic inside an action one that was observed |
| EngineOutcomes.SafeCalls | internal/engine/evaluator.go:59-127 | in every reachable state a finished call that found a safe rule set did not break on its configuration, whatever other sets were active |
| EngineOutcomes.AlwaysListed | internal/engine/evaluator.go:129-149 | over every run cached programs compile conditions once active under their key, so a call ends in a run error only if a condition ever active under the key of one of its rules can |
| EngineOutcomes.MetricsConserved | internal/adapters/httpapi/handlers.go:102-112 | over every run, whatever the cache holds, verdicts are recorded with categories iff they alert, and the counters conserve them |
| EngineMarks.AlwaysMarks | internal/adapters/memory/idempotency_store.go:28-48 | in every reachable state the key of a fresh verdict is held until the clock has passed its 24 hours, a held key is held on account of a fresh verdict, and every duplicate looked while the mark of an earlier fresh verdict on its key lasted |
| EngineMarks.AtMostOncePerDay | internal/pipeline/processor.go:96-104 | under any interleaving, of two fresh verdicts on one key the second looked more than 24 hours after the first was marked |
| EngineMarks.DuplicateForADay | internal/pipeline/processor.go:96-104 | in every reachable state a verdict is a duplicate iff it looked no later than 24 hours after the mark of a fresh verdict on its key that finished before it |
| EngineWindows.QueriesSeeCutHistory | internal/adapters/memory/window_store.go:46-133 | in every reachable state: what a query sees against the never-evicted history, equal for spans within 600 s, and exactly when otherwise |
| EngineWindows.EvictionsDropPrefixes | internal/adapters/memory/window_store.go:123-133 | in every reachable state every window is sorted and any cutoff takes a prefix off it |
| EngineWindows.ChannelCountsAddUp | internal/adapters/memory/window_store.go:57-107 | in every reachable state, at any one cutoff, the three channel counts add up to the entries in span, which bound the distinct devices |
| EngineCounts.ReadCountsAddUp | internal/engine/evaluator.go:184-192 | the three counts a call has read, each at its own clock and with other workers moving in between, add up to between the entries in span at the last read and at the first, equal when the clocks agree |
| EngineSafety.AlwaysSafe | internal/adapters/memory/config_provider.go:57-63 | from a validated bundle and with spans that do not wrap, over every run the active set is valid, its version is the number of sets activated, and no call failed to compile, read a missing window spec or divided by zero: every panic is one that an action observed |
| EngineSafety.ActSafe | internal/engine/evaluator.go:167-168 | no step breaks on a safe configuration; a step that panics is one whose own action observed the panic |
| Verdicts.DefaultThresholdAlerts | internal/config/default_profile.json:4 | for a safe rule set at 0.5 an alert is raised iff some hit is alta or critica, or all of at least one are media |
| Unrouted.BothProcess | internal/pipeline/processor.go:37-41 | two workers on one transaction, both looking before either marks, both process it and record it twice |
| Unrouted.SecondIsDuplicate | internal/pipeline/processor.go:96-104 | one after the other the second is a duplicate while the mark lasts, and there is one entry |
| Batch.InvNext | internal/adapters/httpapi/handlers.go:132-176 | every event of loop, workers, WaitGroup and other requests keeps the books balanced |
| Batch.Progress | internal/adapters/httpapi/handlers.go:132-176 | before Wait returns some participant can move, a full queue included |
| Batch.MeasureDecreases | internal/adapters/httpapi/handlers.go:132-176 | every event of the batch uses up a measure, and a job of another request adds three |
| Batch.Accounting | internal/adapters/httpapi/handlers.go:165-191 | when Wait returns Done was called exactly once per item, and items are counted, failed, panicked or dropped |
| Batch.EveryRun | internal/adapters/httpapi/handlers.go:117-191 | all of these over every interleaving, with a bound on its length and each total exact |
| SingleRequest.EveryRun | internal/adapters/httpapi/handlers.go:61-100 | on a pool others use too: the request is answered with its own call's outcome, or with the context's error only after a cancellation; counted once iff the answer is a verdict; never stuck, a full queue included; the worker's send never blocks; runs are bounded |
| SingleRequest.CountedUnlessAbandoned | internal/adapters/httpapi/handlers.go:91-99 | a verdict is missing from the metrics iff the handler had given up on it |
| SingleRequest.AbandonedRun | internal/adapters/httpapi/handlers.go:91-99 | a run in which a transaction is processed and never counted |
| Metrics.Metrics.RecordDuplicate | internal/adapters/httpapi/metrics.go:27-32 | counts one processed duplicate and nothing else |
| Metrics.Metrics.RecordProcessed | internal/adapters/httpapi/metrics.go:36-50 | the loop over the categories adds one to each, in place, with the other counters |
| Metrics.Metrics.Snapshot | internal/adapters/httpapi/metrics.go:70-87 | the counters as they are |
| Metrics.RecordVerdict | internal/adapters/httpapi/handlers.go:102-112 | a verdict reaches the counters as a duplicate or with its alert's categories |
| Metrics.VerdictsAreListed | internal/engine/evaluator.go:107-118 | every verdict of an uninterrupted, cache-free call is recorded with a non-empty list without repetition when it has an alert, and with none otherwise |
| Metrics.Conservation | internal/adapters/httpapi/metrics.go:27-50 | in any order of records: processed is duplicates plus latencies, the latencies are those of the other verdicts, duplicates, partials and alerts count the verdicts of that kind, and each category counts exactly its alerts |
| Metrics.CategoriesConserved | internal/adapters/httpapi/metrics.go:44-49 | the category counters hold, with multiplicity, every category of every recorded alert |

## Left out

- HTTP routing, JSON, status codes, timeouts, cmd/motor and the demo: plumbing. The JSON round trip in Reload is the identity.
- The expression compiler and machine, SHA-256, the hash of customer ids and the great-circle distance are uninterpreted functions; the UTC timestamp format is assumed injective and without bars for the years 0 to 9999 (section 5.6 of RFC 3339). Nothing is claimed about how evenly customers spread over workers, and the alert id is injective only as far as SHA-256 is. What the default conditions mean is a premise of DefaultRules (`DefaultRules.Interprets`).
- Float64 rounding: amounts, distances, weights and scores are exact reals, and the seconds of a span that wraps are cut without first being rounded.
- Saturation of time arithmetic at the ends of the representable range: clock readings are unbounded integers that never decrease.
- Trace ids, log lines, latency percentiles and throughput: no decision depends on them.
- internal/loadgen, and internal/adapters/memory/risk_store.go beyond profile or default: they would only add easy members.
- Submit after Close (a panic in the code) and a crash of the whole process: outside the contract of the pool.
- A port that fails or panics after having taken effect: an action that observes a fault or a panic has none.
- The order of an alert's category list, which is a map's iteration order: an alert holds the set. The list of degraded layers is the alert's partial flag, since window is the only layer it ever names.
- Goroutines as such: pool, engine, batch and single request are step systems in which any enabled step may come next. Fairness is not modelled; progress says that something can move and that runs are bounded.
- Batch.EveryRun: one closure's record call and its update of the batch totals are one event; how /metrics and the batch totals compare in between is not stated.
- Processor.Processor.Process: proved for one call at a time over its objects; interleaved calls are the subject of Steps and Engine, on values.
- Pool.Pool.Submit: states the completed Submit; the time spent blocked on a full queue is the absence of such a step.
