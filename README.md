# Payment-authorisation pipeline: a Dafny model

This project models the deterministic core of a JavaScript payment-authorisation
repository and proves properties of that model. The model covers these parts:

- **Event pipeline.** This covers:
  - the five-stage transaction state machine (`payment_requested → payment_validated → payment_routed → payment_executed → payment_settled`);
  - the FIFO event bus, which drains the events its handler publishes within the same call;
  - the transaction engine and the orchestrator that drives it;
  - event and correlation-id construction;
  - the pipeline-completeness validator and its fixer.
- **Recovery.** This covers:
  - retry with a doubling backoff;
  - the dead-letter queue;
  - `safeProcess`, which absorbs the final failure into the dead-letter queue;
  - the append-only replay log.
- **Routing.** This covers:
  - the additive-penalty provider scorer;
  - candidate union, dedup and ranking in the routing brain;
  - failover;
  - the lowest-risk chooser of the routing CLI.
- **Compliance.** Velocity windows, the anomaly ratio, first-match pattern rules, and the CLEAR/FLAGGED combiner.
- **Ledger.** This covers:
  - ordered rule validation, posting templates and the validate → post → settle order of the ledger VM;
  - the in-memory double-entry account book of the ledger CLI, which mutates balances in place.
- **Decision.** The heuristic neural score, the APPROVE/REVIEW/DECLINE thresholds, and the Nexus composition of routing, compliance and ledger.
- **Speculative evaluator.** Six fixed weighted paths, per-path scoring, and the decision label taken from the path name.
- **Chain settlement.** Chain selection, the bridge fallback, and settlement with exactly one retry.
- **Mesh.** Peer broadcast, a bus that sorts its event list in place, and leader election by largest id.
- **Source-hygiene helpers.** Smell detection, folder validation, and camelCase → kebab-case.
- **Ops aggregates inside the CLIs.** These are:
  - the sync state merge;
  - the snapshot diff;
  - the kernel and release-candidate health scores;
  - the guardian's manifest check.

Anything the source takes from outside becomes a parameter of the model:

- clocks, UUIDs and the SHA-256 digest;
- health probes and gas probes;
- chain executors and settlement;
- `eval`-ed rule strings;
- parsed files.

JavaScript `undefined`/`null` becomes `Option.None`. A thrown error becomes `Result.Failure` with its message.

`Array.prototype.sort` is stable. It is modelled once, as a functional insertion
sort (`Sorting.SortWith`), which is proved to be a permutation, sorted under a total
preorder, and stable. Every sort in the source is that sort with the source's own
comparator.

Two behaviours of the code are easy to misread:

- The guardian script exits with status 0 whenever the manifest exists, whether
  or not it found issues. Only a missing manifest gives status 1. Issues show up
  as the security alert being written (`Guardian.Scan`).
- The failover path re-chooses with `{ ...payload, risk: 10 }`, but `choose` never
  reads `risk`, so the override has no effect. The backup differs from the primary
  only through a fresh health probe (`Routing.ChosenIgnoresPayloadRisk`,
  `Routing.FailoverSameProbe`).

## Model

| member | source | states |
|---|---|---|
| Sorting.SortWith | src/routing/routing-brain.js:33 | sorting keeps the length and is a permutation of its input (same multiset) |
| Sorting.SortSorted | src/routing/routing-brain.js:33 | under a total, transitive comparator the sorted list is ordered |
| Sorting.SortStable | src/mesh/distributed-bus.js:15 | elements the comparator ties keep their relative input order (stability) |
| Sorting.SortHead | src/mesh/consensus/leader-election.js:3 | the head of the sorted list is the first input element among those ranked at or before every other |
| Sorting.SortHeadLeast | src/routing/routing-brain.js:33-35 | the head of a non-empty sorted list is an input element ranked at or before every input element |
| Strings.LexTotal | src/cli/cyborg-snapshot-diff.js:8 | the default string order compares any two names |
| Strings.LexTransitive | src/cli/cyborg-snapshot-diff.js:8 | the default string order is transitive |
| Strings.LexAntisymmetric | src/cli/cyborg-snapshot-diff.js:8 | two names each ordered before the other are equal |
| StateMachine.OrderDistinct | src/orchestrator/state-machine.js:1-7 | the five stage names are pairwise distinct, so `indexOf` finds each at its own position |
| StateMachine.IndexOf | src/orchestrator/state-machine.js:10-11 | −1 exactly for an absent or unknown state, otherwise the position of that state in the order |
| StateMachine.NextState | src/orchestrator/state-machine.js:9-13 | the result is a stage name or null; the case analysis is `StateMachine.NextStateCases` |
| StateMachine.NextStateCases | src/orchestrator/state-machine.js:9-13 | a stage before `settled` steps to the following stage; `settled` gives null; an unknown or an absent state (indexOf −1) restarts at `payment_requested` |
| StateMachine.IterateFromRequested | src/orchestrator/state-machine.js:9-13 | stepping n times from `requested` visits the n-th stage, reaches `settled` after 4 steps and leaves the pipeline after 5 |
| Events.EmitEvent | src/events/emitter.js:1-8 | the event carries its name, the payload unchanged and the clock reading; its correlation id is the payload's when truthy, else the fresh id |
| Events.EnsureCorrelation | src/utils/correlation.js:3-8 | all fields are kept (an absent payload is empty); a truthy id is kept, otherwise the fresh id is set |
| Events.EnsureCorrelationIdempotent | src/utils/correlation.js:3-8 | applying it a second time, with any id, changes nothing |
| EventValidation.ValidateEventPipeline | src/utils/event-validator.js:1-10 | true exactly when every one of the five stages occurs in the list |
| EventValidation.ValidateDependsOnNamesOnly | src/utils/event-validator.js:9 | lists that agree on which stages they contain validate alike (order, duplicates and other names do not matter) |
| EventValidation.ValidateEmpty | src/utils/event-validator.js:9 | the empty list is incomplete |
| EventValidation.ValidateMonotone | src/utils/event-validator.js:9 | adding events never breaks a complete pipeline |
| EventValidation.MissingMembers | src/fixer/event-fixer.js:10 | the filter keeps exactly the required names absent from the list |
| EventValidation.MissingNoneIffComplete | src/fixer/event-fixer.js:10 | the filter is empty exactly when every required name occurs |
| EventValidation.MissingAtPosition | src/fixer/event-fixer.js:10 | each kept name is the required name at a strictly increasing position, so the filter keeps the order of the required list |
| EventValidation.MissingOrdered | src/fixer/event-fixer.js:2-10 | the missing stages are listed in pipeline order |
| EventValidation.FixEventPipeline | src/fixer/event-fixer.js:1-16 | `missing` is exactly the absent stages; one patch line per missing stage; nothing missing iff the validator accepts |
| EventValidation.FixEventPipelineOrdered | src/fixer/event-fixer.js:10 | the missing stages are distinct and in pipeline order |
| Queue.DrainStartsWithQueue | src/queue/event-bus.js:10-15 | the handled events start with the queue as it was when consuming began (FIFO) |
| Queue.DrainBound | src/queue/event-bus.js:10-15 | with a handler that lowers the total rank, at most that rank many events are handled, so the work-list terminates |
| Queue.Drain | src/queue/event-bus.js:10-15 | the handler is called at least once exactly when the queue starts non-empty; FIFO order is `Queue.DrainStartsWithQueue` |
| Queue.EventBus.constructor | src/queue/event-bus.js:2-4 | a new bus has an empty queue |
| Queue.EventBus.Publish | src/queue/event-bus.js:6-8 | the event is appended to the back of the queue |
| Queue.EventBus.Consume | src/queue/event-bus.js:10-15 | the queue ends empty, and the handled events are the FIFO drain of the initial queue, including everything the handler published |
| Queue.DeadLetterQueue.constructor | src/queue/dead-letter.js:2-4 | a new dead-letter queue is empty |
| Queue.DeadLetterQueue.Push | src/queue/dead-letter.js:6-8 | exactly one record (event, reason, time) is appended |
| Queue.DeadLetterQueue.List | src/queue/dead-letter.js:10-12 | returns the recorded failures in order |
| Orchestrator.Published | src/orchestrator/transaction-engine.js:9-15 | at most one event, published exactly when a next stage exists, carrying that stage, the same payload and the inherited correlation id |
| Orchestrator.TransactionEngine.constructor | src/orchestrator/transaction-engine.js:5-7 | the engine publishes onto the given bus |
| Orchestrator.TransactionEngine.Process | src/orchestrator/transaction-engine.js:9-15 | the bus queue grows by exactly the published next-stage event, if any |
| Orchestrator.EngineHandlerDecreasing | src/orchestrator/core-orchestrator.js:14 | each event the engine publishes is ranked strictly below the event it handles, so the drain terminates |
| Orchestrator.CoreOrchestrator.constructor | src/orchestrator/core-orchestrator.js:6-10 | a fresh, empty bus shared with the engine |
| Orchestrator.CoreOrchestrator.Start | src/orchestrator/core-orchestrator.js:12-15 | publishes the event and drains the bus with the engine, leaving it empty |
| Orchestrator.DrainFromStage | src/orchestrator/core-orchestrator.js:12-15 | from stage j the drain handles one event per remaining stage, in order, all with the same payload, and derived events keep a truthy correlation id |
| Orchestrator.StartFromRequested | src/orchestrator/core-orchestrator.js:12-15 | starting at `requested` handles all five stages in order, under one payload |
| Orchestrator.StartFromSettled | src/orchestrator/core-orchestrator.js:12-15 | starting at `settled` handles only that event |
| Orchestrator.StartTerminates | src/orchestrator/core-orchestrator.js:12-15 | any lone start event is handled first, and at most six events are handled in all (an unknown stage restarts the pipeline once) |
| Recovery.RetryFromCases | src/recovery/retry-engine.js:1-12 | undefined iff no attempts remain; resolved with the first attempt that returns; rejected with the last error iff every attempt throws |
| Recovery.RetryMoreAttempts | src/recovery/retry-engine.js:3-11 | once an attempt succeeds, allowing more attempts changes nothing |
| Recovery.RetryFrom | src/recovery/retry-engine.js:1-12 | the outcome is undefined exactly when no attempt remains; the other outcomes are `Recovery.RetryFromCases` |
| Recovery.Retry | src/recovery/retry-engine.js:1-12 | the loop's outcome, number of calls and sleeps match the specification; the k-th sleep is 200·2^k ms, and there is no sleep after the last attempt |
| Recovery.TotalBackoffClosed | src/recovery/retry-engine.js:2-9 | n doubling sleeps total 200·(2^n − 1) ms |
| Recovery.OrchestratorRecovery.constructor | src/recovery/orchestrator-recovery.js:5-8 | keeps the bus and starts with a fresh, empty dead-letter queue |
| Recovery.OrchestratorRecovery.SafeProcess | src/recovery/orchestrator-recovery.js:10-16 | a rejected retry records exactly one dead letter with the error message and returns nothing; otherwise the dead-letter queue is unchanged |
| Recovery.ReplayEngine.constructor | src/recovery/replay-engine.js:2-5 | an empty history on the given bus |
| Recovery.ReplayEngine.Record | src/recovery/replay-engine.js:7-9 | appends the event to the history |
| Recovery.ReplayEngine.Replay | src/recovery/replay-engine.js:11-15 | republishes the whole history, in order, onto the bus |
| Routing.ScoreProvider | src/routing/scoring.js:1-13 | score in [−140, 100]; 100 iff latency ≤ 500, risk ≤ 70 and available; never positive when unavailable |
| Routing.ScoreTiers | src/routing/scoring.js:4-10 | the score is 100 minus tiered penalties: 0, 20 or 60 for latency, 0, 30 or 80 for risk, and 100 when unavailable |
| Routing.ScoreMonotone | src/routing/scoring.js:4-10 | higher latency, higher risk or losing availability never raise the score |
| Routing.OrDefault | src/routing/routing-brain.js:25-26 | `x \|\| d`: the default for undefined or 0, otherwise the value |
| Routing.ProviderScore | src/routing/routing-brain.js:24-28 | a provider that is not UP scores ≤ 0; a missing or zero latency is penalised as slow; an UP provider with latency in (0, 500] and no risk scores 100 |
| Routing.Dedup | src/routing/routing-brain.js:14 | the same names without repeats |
| Routing.DedupOrder | src/routing/routing-brain.js:14 | names keep the order of their first occurrence |
| Routing.Candidates | src/routing/routing-brain.js:11-14 | exactly the names routed by the MCC or by the country, each once |
| Routing.ScoredList | src/routing/routing-brain.js:16-31 | every entry is a known candidate carrying its own score with its own health, every known candidate has an entry, and unknown names are skipped |
| Routing.ScoredListCount | src/routing/routing-brain.js:16-31 | each known name is scored as many times as it occurs among the candidates |
| Routing.ScoredListAppend | src/routing/routing-brain.js:16-31 | scoring keeps candidate order: the entries for `a + b` are those for `a` followed by those for `b` |
| Routing.ScoredIndex | src/routing/routing-brain.js:16-31 | the i-th entry comes from some candidate k, and the entries before it are exactly those of the candidates before k |
| Routing.Best | src/routing/routing-brain.js:33-35 | none iff nothing was scored; otherwise the first entry with the maximum score |
| Routing.Chosen | src/routing/routing-brain.js:10-36 | the chosen provider is a candidate for the payload with a provider entry; the maximality of its score is `Routing.ChosenIsCandidate` |
| Routing.ChosenIsCandidate | src/routing/routing-brain.js:10-36 | the chosen provider is a known candidate carrying its own score, and no known candidate scores higher; every known candidate before it scores strictly less, so ties go to the earliest candidate, as the stable descending sort gives; nothing is chosen iff no candidate is known |
| Routing.BestOfScored | src/routing/routing-brain.js:16-35 | the same four facts for the best entry of any list of names |
| Routing.ChosenMaximal | src/routing/routing-brain.js:33-35 | an entry that no entry outscores beats every known candidate |
| Routing.ChosenEarliest | src/routing/routing-brain.js:33-35 | an entry that beats every entry before it beats every known candidate listed before its name |
| Routing.ChosenIgnoresPayloadRisk | src/routing/failover.js:8 | the payload's risk never influences the choice |
| Routing.RoutingBrain.constructor | src/routing/routing-brain.js:6-8 | keeps the provider registry and the routing map |
| Routing.RoutingBrain.Choose | src/routing/routing-brain.js:10-36 | the loop and in-place sort return exactly the specified best provider |
| Routing.Failover | src/routing/failover.js:1-13 | nothing iff no primary; a primary scoring at least 50 is kept after one query; a weaker one triggers a second query whose result wins when present |
| Routing.FailoverSameProbe | src/routing/failover.js:6-10 | with an unchanged probe the backup is the primary itself |
| RoutingCli.Serving | src/cli/cyborg-routing.js:31-34 | exactly the providers supporting both the currency and the country, never more than the list holds |
| RoutingCli.ServingCount | src/cli/cyborg-routing.js:31-34 | each serving provider is kept as many times as the list has it, any other not at all |
| RoutingCli.ServingAppend | src/cli/cyborg-routing.js:31-34 | the filter keeps list order: the serving providers of `a + b` are those of `a` followed by those of `b` |
| RoutingCli.ServingIndex | src/cli/cyborg-routing.js:31-34 | the i-th serving provider is some `providers[k]`, and the serving providers before it are exactly those before k |
| RoutingCli.CandidatesFor | src/cli/cyborg-routing.js:31-36 | the serving providers when any serves, all providers when none does; so only providers are candidates, and there are candidates whenever there are providers |
| RoutingCli.ChosenProvider | src/cli/cyborg-routing.js:30-40 | a candidate of least risk score, the first such one; none only without providers |
| RoutingCli.ChosenIgnoresAmountAndMcc | src/cli/cyborg-routing.js:30-40 | only the currency and the country influence the choice |
| RoutingCli.ChosenLeastRisk | src/cli/cyborg-routing.js:30-40 | when some provider serves, the choice serves, has the least risk of all serving providers and less than every serving provider listed before it; when none serves, the same over all providers |
| RoutingCli.ChosenServingLeast | src/cli/cyborg-routing.js:31-39 | the serving half of `RoutingCli.ChosenLeastRisk`, stated over the provider list |
| RoutingCli.ServingEarliest | src/cli/cyborg-routing.js:31-39 | a serving provider with less risk than the serving providers before it in the filtered list has less risk than every serving provider listed before it |
| RoutingCli.ServingPreferred | src/cli/cyborg-routing.js:31-39 | when some provider serves the request, a serving provider is chosen |
| RoutingCli.RoutingCli.constructor | src/cli/cyborg-routing.js:27 | starts from the loaded provider list |
| RoutingCli.RoutingCli.ChooseProvider | src/cli/cyborg-routing.js:30-40 | returns the specified choice; when nothing serves, the shared provider list itself is left sorted by risk |
| RoutingCli.FallbackSortPermutes | src/cli/cyborg-routing.js:36-38 | sorting the shared list in place loses no provider and keeps ties in order |
| Compliance.Window | src/compliance/runtime/velocity.js:2-3 | exactly the transactions younger than the window, never more than the history holds |
| Compliance.WindowCount | src/compliance/runtime/velocity.js:2-3 | each transaction younger than the window is kept as many times as the history lists it, any other not at all |
| Compliance.WindowAppend | src/compliance/runtime/velocity.js:2-3 | the window keeps history order: the window of `a + b` is the window of `a` followed by the window of `b` |
| Compliance.WindowNested | src/compliance/runtime/velocity.js:2-3 | a wider window never holds fewer transactions |
| Compliance.VelocityCheck | src/compliance/runtime/velocity.js:1-15 | the minute breach iff the last minute's amounts plus the payment exceed their limit; otherwise the hour breach iff the last hour's count plus one exceeds its limit; otherwise nothing |
| Compliance.VelocityIgnoresOld | src/compliance/runtime/velocity.js:2-3 | a transaction an hour old or older never influences the check |
| Compliance.AnomalyScore | src/compliance/runtime/anomaly.js:1-10 | a spike exactly when amount / average reaches the threshold |
| Compliance.AnomalyCrossMultiplied | src/compliance/runtime/anomaly.js:2-5 | with a positive history sum, a spike iff amount·n ≥ threshold·sum |
| Compliance.AnomalyZeroAverage | src/compliance/runtime/anomaly.js:2-5 | with a zero average, the amount itself is compared with the threshold |
| Compliance.PatternMatch | src/compliance/runtime/patterns.js:1-13 | none iff no rule holds; otherwise the first rule that holds |
| Compliance.PatternMatchFirstWins | src/compliance/runtime/patterns.js:2-11 | rules after a matching one are never consulted |
| Compliance.Fired | src/compliance/compliance-core.js:19 | empty exactly when no check fired, and never longer than the checks |
| Compliance.Evaluate | src/compliance/compliance-core.js:12-31 | CLEAR iff no check fires; otherwise FLAGGED with the fired reasons in velocity, anomaly, pattern order |
| Ledger.Validate | src/lvm/runtime/validator.js:1-13 | success iff every rule holds; otherwise it fails with the first rule that fails |
| Ledger.ValidateFirstFailureWins | src/lvm/runtime/validator.js:2-12 | rules after a failing one are never consulted |
| Ledger.Post | src/lvm/runtime/posting.js:1-9 | one immutable entry per template, in order, with the template's entry type, the account the template names in the payload, the payload amount and the clock |
| Ledger.PostTotal | src/lvm/runtime/posting.js:2-8 | the entries' amounts total one payload amount per template |
| Ledger.Execute | src/lvm/lvm-core.js:11-20 | a validation failure propagates unchanged; otherwise posting, then settlement of the payload |
| LedgerBook.FindIndex | src/cli/cyborg-ledger.js:30-32 | the first account with the id, or none iff no account has it |
| LedgerBook.FindIndexExtend | src/cli/cyborg-ledger.js:30-41 | appending accounts never changes which account an id finds |
| LedgerBook.Ensured | src/cli/cyborg-ledger.js:34-41 | an existing account leaves the list unchanged; otherwise one zero-balance account is appended; the total balance and id uniqueness are kept |
| LedgerBook.AdjustTotal | src/cli/cyborg-ledger.js:58-59 | changing one balance by δ changes the total by δ |
| LedgerBook.EnsuredBoth | src/cli/cyborg-ledger.js:55-56 | both accounts exist afterwards; only zero-balance accounts are appended, so the total and id uniqueness are kept |
| LedgerBook.Transfer | src/cli/cyborg-ledger.js:58-59 | the posting keeps every id and the total of all balances |
| LedgerBook.Posting | src/cli/cyborg-ledger.js:55-59 | the whole posting preserves the sum of all balances (double entry) |
| LedgerBook.TransferBalances | src/cli/cyborg-ledger.js:58-59 | debit rises and credit falls by the amount; the same account on both sides is unchanged; all other balances are untouched |
| LedgerBook.PostingBalances | src/cli/cyborg-ledger.js:43-60 | after a posting, every account balance is its old balance plus the amount if debited and minus it if credited |
| LedgerBook.UniqueIndex | src/cli/cyborg-ledger.js:30-32 | with unique ids, the lookup finds exactly the account's own position |
| LedgerBook.UniqueBalance | src/cli/cyborg-ledger.js:34-41 | appending zero-balance accounts keeps every id's balance |
| LedgerBook.Dashed | src/cli/cyborg-ledger.js:46 | each ':' and '.' becomes '-', and nothing else changes |
| LedgerBook.JournalId | src/cli/cyborg-ledger.js:46 | "JNL-" followed by the timestamp, with no ':' or '.' left |
| LedgerBook.Book.constructor | src/cli/cyborg-ledger.js:27-28 | starts from the loaded accounts and journal |
| LedgerBook.Book.FindAccount | src/cli/cyborg-ledger.js:30-32 | an account with that id iff one exists, and the first such: every account listed before it has another id |
| LedgerBook.Book.EnsureAccount | src/cli/cyborg-ledger.js:34-41 | accounts become the specified ensured list; the journal is untouched; the returned position holds the id |
| LedgerBook.Book.PostJournalEntry | src/cli/cyborg-ledger.js:43-60 | appends exactly one journal record, and the accounts become the specified posting |
| Nexus.NeuralScore | src/nexus/brain/neural-score.js:1-19 | the score lies within [r − 170, r + 80] of the routing term r; the top is reached exactly under CLEAR, two ledger entries and amount ≤ 10000 |
| Nexus.NeuralScoreTerms | src/nexus/brain/neural-score.js:4-16 | routing + compliance (+50 CLEAR, −100 FLAGGED) + ledger (+30 for exactly two entries, else −50) − 20 above 10000 |
| Nexus.NeuralScoreMonotone | src/nexus/brain/neural-score.js:5 | a higher routing score never lowers the neural score |
| Nexus.FlaggedDeclined | src/nexus/brain/neural-score.js:9 | a FLAGGED payment with routing score ≤ 100 is always declined |
| Nexus.FuseDecision | src/nexus/brain/decision-fusion.js:1-13 | APPROVE iff ≥ 80; REVIEW iff 40 ≤ s < 80; DECLINE below 40 or when absent; each with its fixed reason |
| Nexus.FuseMonotone | src/nexus/brain/decision-fusion.js:4-12 | a higher score never yields a lower verdict |
| Nexus.ApproveNeedsRouting | src/nexus/brain/decision-fusion.js:4 | approval needs a non-negative routing score, at least 80 without a two-entry ledger, and at least 150 when flagged |
| Nexus.ChosenAtMost100 | src/routing/scoring.js:2-12 | the routing score fed to the neural score never exceeds 100 |
| Nexus.NexusEngine.constructor | src/nexus/nexus-core.js:6-10 | keeps the routing brain, compliance engine and ledger VM |
| Nexus.NexusEngine.Execute | src/nexus/nexus-core.js:12-26 | a ledger failure propagates; otherwise the context holds the three results unchanged, its neural score, and the fused decision of that context |
| Nexus.NexusDeclinesFlagged | src/nexus/nexus-core.js:12-20 | a payment compliance flags is declined by the whole engine |
| Quantum.GenerateQuantumStates | src/quantum/state/state-generator.js:1-10 | six paths with distinct names and positive weights summing to exactly 1 |
| Quantum.GeneratedContains | src/quantum/state/state-generator.js:3-8 | each path's name contains its verdict label |
| Quantum.GeneratedLacks | src/quantum/state/state-generator.js:3-8 | no path name contains another verdict's label |
| Quantum.GeneratedCounts | src/quantum/state/state-generator.js:3-8 | three names contain APPROVE, one REVIEW and two DECLINE |
| Quantum.EvaluateRoutingSplit | src/quantum/probability/probability-engine.js:1-10 | only the routing part is weighted: the score is the weighted routing score plus the score of the other parts alone |
| Quantum.EvaluateMonotone | src/quantum/probability/probability-engine.js:2-9 | for a non-negative weight, a higher routing score never lowers the path score |
| Quantum.EvaluateState | src/quantum/probability/probability-engine.js:1-10 | with every part of the context absent the score is 0; the weight's effect is `Quantum.EvaluateMonotone` |
| Quantum.NexusOnlyRouting | src/quantum/probability/probability-engine.js:2-9 | on a Nexus context only the weighted routing term contributes |
| Quantum.EvaluateAll | src/quantum/core/quantum-core.js:15-18 | same paths in the same order, each with its own evaluated score |
| Quantum.DecisionFromPath | src/quantum/core/quantum-core.js:25-29 | APPROVE iff the name contains APPROVE; else REVIEW iff it contains REVIEW; else DECLINE |
| Quantum.GeneratedDecisions | src/quantum/core/quantum-core.js:25-29 | every generated path yields the verdict its name carries |
| Quantum.QuantumExecutionLayer.constructor | src/quantum/core/quantum-core.js:6-8 | wraps the given Nexus engine |
| Quantum.QuantumExecutionLayer.Execute | src/quantum/core/quantum-core.js:10-31 | a ledger failure propagates; otherwise the evaluated paths, the fused best path, and the decision taken from its name |
| Chain.ChooseChain | src/chain/router/router.js:3-12 | the high-risk chain above risk 70; else the low-fee chain iff its gas is below 20; else the fallback; always one of the three |
| Chain.ChooseChainProbe | src/chain/router/router.js:4-9 | above risk 70 the gas probe is irrelevant; only the low-fee chain's gas ever matters |
| Chain.BridgeFallback | src/chain/bridge/fallback.js:1-4 | solana bridges to ethereum whatever the policy; every other chain to the policy's fallback |
| Chain.BridgeFallbackSettles | src/chain/bridge/fallback.js:1-4 | the fallback chain bridges to itself, so a second bridge changes nothing |
| Chain.MultiChainSettlement.constructor | src/chain/core/multichain-core.js:8-11 | keeps the chain policy |
| Chain.MultiChainSettlement.Settle | src/chain/core/multichain-core.js:13-26 | one submission on the chosen chain, a second on its bridge fallback iff the first was not "submitted", the last result returned, every transaction carrying the payload's parties and amount |
| Mesh.MeshNode.constructor | src/mesh/nodes/node.js:2-6 | a new node is alive with no peers |
| Mesh.MeshNode.AddPeer | src/mesh/nodes/node.js:8-10 | appends the peer without deduplication |
| Mesh.MeshNode.Receive | src/mesh/nodes/node.js:18-20 | only logs the delivery and changes no node |
| Mesh.MeshNode.Broadcast | src/mesh/nodes/node.js:12-16 | each live peer in list order receives the message from this node |
| Mesh.Deliveries | src/mesh/nodes/node.js:12-16 | every delivery goes to a live listed node, with the given message and sender |
| Mesh.DeliveriesAppend | src/mesh/nodes/node.js:12-16 | delivering to two lists is delivering to each in turn, so a node listed twice receives twice |
| Mesh.DeliveriesCount | src/mesh/nodes/node.js:12-16 | one delivery per live listing; dead nodes receive nothing |
| Mesh.AliveOf | src/mesh/consensus/leader-election.js:2 | exactly the live nodes, never more than the list holds |
| Mesh.AliveCount | src/mesh/consensus/leader-election.js:2 | each live node is kept as many times as the list holds it, a dead node not at all |
| Mesh.AliveAppend | src/mesh/consensus/leader-election.js:2 | the filter keeps list order: the live nodes of `a + b` are those of `a` followed by those of `b` |
| Mesh.DistributedBus.constructor | src/mesh/distributed-bus.js:2-5 | keeps the nodes, with no events |
| Mesh.DistributedBus.Publish | src/mesh/distributed-bus.js:7-12 | appends the event and delivers it from the bus to every live node in order |
| Mesh.DistributedBus.GetOrderedEvents | src/mesh/distributed-bus.js:14-16 | sorts the bus's own list by timestamp and returns that list |
| Mesh.OrderedEvents | src/mesh/distributed-bus.js:14-16 | that sort keeps every event, orders by timestamp and keeps equal timestamps in publication order |
| Mesh.Highest | src/mesh/consensus/leader-election.js:3 | the first node with the largest id, none only for an empty list |
| Mesh.ElectLeader | src/mesh/consensus/leader-election.js:1-5 | none iff no node is alive; otherwise a live node with the largest id, the first such among the live nodes |
| Mesh.HighestAlive | src/mesh/consensus/leader-election.js:1-5 | a dead node is never elected, and no live node has a larger id |
| Fixers.DetectSmells | src/fixer/smell-detector.js:1-21 | each message present exactly when its trigger is present |
| Fixers.SmellsInCheckOrder | src/fixer/smell-detector.js:1-21 | the messages come in the order the checks run |
| Fixers.SmellsBound | src/fixer/smell-detector.js:1-21 | at most four messages, and none exactly when no trigger is present |
| Fixers.Split | src/fixer/folder-fixer.js:3 | at least one piece, and no piece contains the separator |
| Fixers.SplitJoin | src/fixer/folder-fixer.js:3 | joining the pieces with the separator gives back the string |
| Fixers.SplitNoSeparator | src/fixer/folder-fixer.js:3 | a string without the separator is one piece |
| Fixers.SplitAfter | src/fixer/folder-fixer.js:3 | splitting at the first separator yields the head, then the pieces of the rest |
| Fixers.ValidateFolder | src/fixer/folder-fixer.js:1-13 | valid iff the second segment is one of the six roots; invalid results carry the fixed message and valid ones none |
| Fixers.NoSlashInvalid | src/fixer/folder-fixer.js:3-5 | a path with no "/" is invalid |
| Fixers.FolderOfPath | src/fixer/folder-fixer.js:2-12 | `top/root/rest` is valid iff `root` is a valid root |
| Fixers.ToLower | src/fixer/naming-fixer.js:4 | the result is never upper case, and non-upper characters are unchanged |
| Fixers.Lower | src/fixer/naming-fixer.js:4 | same length, each character lowered |
| Fixers.LowerNoUpper | src/fixer/naming-fixer.js:4 | lowering a string without capitals changes nothing |
| Fixers.HyphenateLength | src/fixer/naming-fixer.js:3 | one hyphen is added per lower→upper boundary |
| Fixers.HyphenateNoUpper | src/fixer/naming-fixer.js:3 | a string without capitals has no boundary to mark |
| Fixers.SuggestNamingFix | src/fixer/naming-fixer.js:1-10 | the original is the input unchanged, and the suggestion has no capitals |
| Fixers.SuggestIdempotent | src/fixer/naming-fixer.js:1-10 | fixing a suggestion gives the suggestion back |
| Fixers.SuggestLength | src/fixer/naming-fixer.js:1-10 | the suggestion's length is the name's length plus the number of boundaries |
| Sync.LoadState | src/cli/cyborg-sync.js:26-29 | a missing file reads as the running node at timestamp 0 with no data |
| Sync.MergeStates | src/cli/cyborg-sync.js:35-41 | a's node; the larger timestamp; every key of either side, with b winning clashes |
| Sync.MergeIdempotent | src/cli/cyborg-sync.js:35-41 | merging a state with itself gives it back |
| Sync.MergeAssociative | src/cli/cyborg-sync.js:35-41 | merging is associative |
| Sync.MergeAbsorbs | src/cli/cyborg-sync.js:35-41 | merging the same state twice equals merging it once |
| Sync.MergeFold | src/cli/cyborg-sync.js:78-84 | the node is the local one, and the timestamp is the maximum over the local and every stored state |
| Sync.MergeFoldKeys | src/cli/cyborg-sync.js:78-84 | the merged keys are exactly the local keys plus those of every stored state |
| Sync.MergeFoldLastWriter | src/cli/cyborg-sync.js:78-84 | each key takes the value of the last stored state holding it, else the local value |
| Sync.Merge | src/cli/cyborg-sync.js:76-87 | the loop's result is the specified fold over the stored states, starting from the local one |
| Sync.MergeKeepsLocal | src/cli/cyborg-sync.js:78-84 | the merge keeps the local node, never lowers the local timestamp and loses no local key |
| Sync.MergeFoldSelf | src/cli/cyborg-sync.js:80-84 | folding a state with copies of itself changes nothing |
| SnapshotDiff.Lookup | src/cli/cyborg-snapshot-diff.js:25 | undefined iff no entry has the key; otherwise a listed value under that key |
| SnapshotDiff.NewerChanges | src/cli/cyborg-snapshot-diff.js:24-32 | the loop over the newer keys never reports "removed" and reports no more changes than the newer snapshot has entries |
| SnapshotDiff.NewerChangesComplete | src/cli/cyborg-snapshot-diff.js:24-32 | every newer key falsy in the older snapshot is "added"; every other newer key with a different value is "modified" |
| SnapshotDiff.NewerChangesSound | src/cli/cyborg-snapshot-diff.js:24-32 | only newer keys are reported: "added" ones falsy in the older snapshot, "modified" ones truthy there with a different value |
| SnapshotDiff.OlderChanges | src/cli/cyborg-snapshot-diff.js:34-38 | "removed" exactly for older keys falsy in the newer snapshot |
| SnapshotDiff.Diff | src/cli/cyborg-snapshot-diff.js:22-38 | the two loops produce exactly the newer-key changes, then the removals |
| SnapshotDiff.DiffIdentical | src/cli/cyborg-snapshot-diff.js:24-38 | identical snapshots with only truthy values have no changes |
| SnapshotDiff.DiffFalsyBoth | src/cli/cyborg-snapshot-diff.js:24-38 | a key falsy in both snapshots is reported both added and removed |
| SnapshotDiff.JsonFiles | src/cli/cyborg-snapshot-diff.js:8 | exactly the names ending in ".json" |
| SnapshotDiff.LatestPair | src/cli/cyborg-snapshot-diff.js:8-16 | none iff fewer than two snapshots; otherwise the two greatest snapshot names, older before newer |
| SnapshotDiff.Run | src/cli/cyborg-snapshot-diff.js:8-40 | no diff without two snapshots; otherwise the diff from the older of the last two to the newer |
| Kernel.HealthScore | src/cli/cyborg-kernel.js:38-42 | 100 minus 20 per zero count; in [20, 100]; 100 iff all four counts are positive |
| Kernel.Actions | src/cli/cyborg-kernel.js:24-36 | each action present iff its count is zero, in fixed order; telemetry adds none |
| Kernel.TelemetryOnlyScores | src/cli/cyborg-kernel.js:24-42 | telemetry never changes the actions, and a first telemetry event raises the score by 20 |
| Kernel.ScoreAndActions | src/cli/cyborg-kernel.js:24-42 | the score loses 20 per action, and 20 more without telemetry |
| ReleaseCandidate.RcScore | src/cli/cyborg-rc.js:26-31 | 100 minus 20 per count below 1; in [20, 100]; 100 iff every count is at least 1 |
| ReleaseCandidate.RcOnlyPositivity | src/cli/cyborg-rc.js:28-31 | counts matter only through being zero or not |
| ReleaseCandidate.RcAgreesWithKernel | src/cli/cyborg-rc.js:26-31 | the release-candidate score equals the kernel's health score on the same counts |
| Guardian.IssueOfCases | src/cli/cyborg-guardian.js:30-41 | unknown iff the file is unlisted or listed empty; tampered, with both hashes, iff listed with another hash; nothing iff the hash matches; every issue names its file |
| Guardian.IssueOf | src/cli/cyborg-guardian.js:30-41 | an issue always names the file checked; which issue arises is `Guardian.IssueOfCases` |
| Guardian.IssuesStep | src/cli/cyborg-guardian.js:29-42 | one more file adds exactly its own issue, if any, after those of the files before it |
| Guardian.IssuesOf | src/cli/cyborg-guardian.js:29-42 | at most one issue per file |
| Guardian.IssuesOfFiles | src/cli/cyborg-guardian.js:29-42 | every issue names a scanned file; no issues iff every file is listed with its own hash |
| Guardian.IssuesAppend | src/cli/cyborg-guardian.js:29-42 | issues follow file order: scanning two lists is scanning each in turn |
| Guardian.IssuesSingle | src/cli/cyborg-guardian.js:29-42 | one file yields exactly its own issue, if any |
| Guardian.JsFiles | src/cli/cyborg-guardian.js:25 | exactly the listed files ending in ".js", never more than the listing holds |
| Guardian.JsFilesCount | src/cli/cyborg-guardian.js:25 | each `.js` file is kept as many times as the listing has it, any other file not at all |
| Guardian.JsFilesAppend | src/cli/cyborg-guardian.js:25 | the filter keeps listing order: the `.js` files of `a + b` are those of `a` followed by those of `b` |
| Guardian.Scan | src/cli/cyborg-guardian.js:14-64 | a missing manifest exits 1 with no scan; otherwise exit 0, the scanned issues, and an alert written iff there are issues |

## Left out

- Queue.EventBus.Consume: the handler is a pure function of the call number and the event, ranked so the work-list provably shrinks. A handler that publishes forever or throws is not modelled.
- Quantum.GenerateQuantumStates: the weights are exact reals. The floating-point sum of the source's decimal weights is not modelled.
- Quantum.QuantumExecutionLayer.Execute: the outcome-fusion module (`fuse`) is not part of this model. Its choice of best path is a parameter, and only its use is modelled.
- Chain.MultiChainSettlement.Settle: a gas probe that returns undefined is not modelled (`gasOf` gives an integer), and the chain executor is a parameter.
- The modules behind the routing health check, chain health, executor and settlement are not part of this model. Their results are parameters (the `ping` wall-clock latency included).
- File reading, JSON parsing, directory listing, console output and report or event writing are left out. Parsed content and listings are parameters.
- The sync CLI's `push` and `pull` actions only write or list files, so they are left out. Sync data values are strings.
- The kernel and release-candidate CLIs' file counting and report writing are left out. The counts are parameters.
- Clocks, UUIDs, nonces and random bytes are parameters. Where the source reads `Date.now` several times in one call, the model uses one reading.
- `await` is treated as sequential, and the retry backoff records its sleep durations instead of sleeping.
- The `eval` of rule strings (with `String.replace`, which substitutes only the first occurrence of a name) is a parameter predicate `holds`. Only the rule order and first-match logic are modelled.
- Amounts are integers, and NaN or non-numeric amounts are not modelled. The anomaly ratio uses exact reals, with no IEEE rounding.
- Lowercasing covers ASCII letters only.
- String lengths and the default sort order count characters, where JavaScript counts UTF-16 code units.
- Ledger payload fields are strings, so a numeric `payload[account]` is not modelled.
- Compliance statuses other than CLEAR and FLAGGED cannot be represented in a compliance result.
- `Mesh.DistributedBus.GetOrderedEvents` returns the list's value, so later aliasing of the returned array is not modelled.
- The ledger book's accounts are a sequence of values. A position stands for the JavaScript object reference.
- Several source files contain backslash-escaped backticks where template literals were evidently intended: validator.js:5-7, patterns.js:5-6, event-fixer.js:14 and node.js:19. The intended strings are modelled.
- These are left out as record constructors folded into their callers: context-builder.js, tx-builder.js, ledger-entry.js, gossip.js and trycatch.js.
- The policy loaders only read JSON files. Policies are immutable parameters.
- cyborg-brain.js is left out: its risk score and override come from `Math.random`.
- The Python training, drift and cleanup scripts, the HTTP listeners and the demo, telemetry and template CLIs are left out. They hold no reusable decision logic.
