# A verified model of the weekly trading committee

The repository runs a weekly trading committee: agents give forecasts, a committee pools and calibrates
them, a book is sized and vetoed, committed, anchored, executed at a broker and finally judged by a
sequential test. This project models the parts of it where a mistake would be expensive, and proves what
those parts are for. `dafny verify dfyconfig.toml` checks it all.

## What is modelled

**Execution.** `Broker` is an adversary: orders fill, are cancelled or expire between any two calls, a
request may be lost or accepted long after the caller gave up, the process may die at any call. Its only
promises are that a client order id is used once and that a terminal order never changes. `Gateway.Valid`
says that the history so far is one the executor can produce, so safety is a statement about histories: if
every plan agreed, when it was taken up, with what the broker had and what was under way, no target is ever
overfilled or moved the wrong way. `Executor` holds one name, `BookExecution` the shared phases of a
rebalance, `Halting` the kill-switch actions, `Planning` the order sizes, `ExecutionStage` the stored row and
repeated calls. `Replanning` shows that agreement is exactly what is needed. `Triggers` are the kill switch's
automatic triggers. The gateway's log notes each request with the state of the switch, and each gate also with
the reading of the account it rests on. Whatever is outside counts its own failures, so that a contract can
say that a call which fails, or leaves something undone, has a cause.

**The run row.** `RunStore` gives every writer as a function on a run's rows, `StoreWriter` the two writers
that are more than one conditional statement, and `RunProtocol` a step relation over rows, locks, workers and
the clock with one inductive invariant, from which the guarantees about all interleavings follow. `AdvanceRun`
is the worker that takes a run to its anchor, call by call, and refines the relation. `Scorable` is the gate
that reads the rows.

**The sequential test.** `SequentialTest` and `LongRunVariance` are the arithmetic; `ErrorBound` proves the
error bound on finite probability trees, which stand for any joint law of the weekly excesses.

**Reference prices.** `TradeConditions`, `ReferenceRules` are the three-valued rules, following the Sale
Condition field and Notes 2 to 4 of the CTA CTS Pillar Multicast Output Binary Specification v2.11b and
section 3.14.2 of the UTP Data Feed Services Specification v4.1. `ReferenceSoundness` compares them with a
two-valued machine over every completion; `ReferenceExactness` says what every verdict and reference is in
terms of the trades alone; `ReferenceOrder` proves information order and causality.

**Numbers and limits.** `Pooling`, `Stacker`, `EffectiveAgents`, `Sizing`, `SizingExactness`, `Cio`,
`AgentBudget`, `AgentRunner`, `SlidingWindow`, `TokenBucket`, `TradingCalendar` and `CalendarBuild`.

## Conventions

Floating-point numbers are idealised to `real`. Share quantities are integers of a millionth of a share, so
rounding to six places is exact and the tolerance of 1e-6 is one unit. A square root, the logistic function
and its integral enter as parameters with the few facts used of them; the commitment hash and the calendar
hash are function parameters, assumed injective only where a statement says so. A product of two variables
is often written `Times(a, b)` so that a proof can leave it unopened. Calls into the broker, the store and
the model providers are methods that choose their answer freely; times and clocks are integers.

## Where code and documentation differ

The model follows the code.

- `execution/executor.py:148-150` promises that a failing name does not stop the others. The constructor of
  a leg and the polling loop are not guarded, so a failed lookup or re-read there ends the whole call;
  isolation is stated for the guarded steps only.
- `execution/executor.py:75` says `complete` means filled exactly. It means within a millionth of a share, so
  a blocked target of one millionth is complete; the stage also requires that it was not blocked.
- `store/write.py:296-298` rules out a demotion to PENDING, PARTIAL or FAILED, but the upsert alone lets
  COMMITTED overwrite ANCHORED; `RunProtocol.UnlockedCommitRegresses` says exactly when, and the advance lock
  with the short-circuit is what rules it out.
- `contracts/enums.py:78-88` lists run transitions the store does not consult; runs go from PENDING to
  COMMITTED directly.
- `orchestration/execution_stage.py:100` says EXECUTED means the row advanced. A call can return EXECUTED with
  `advanced` false; the guarantee is stated on the stored row.
- `store/write.py:608-613` does not say that a second halt with the same trigger at another time is refused
  by its reference request; `RunStore.HaltSucceedsIff` gives the exact condition.
- `orchestration/execution_stage.py:17-19` promises that a replay finishes the existing order. A request whose
  answer was lost and that the broker accepts after the run was planned again is not known to the new plan;
  `Replanning.ReplanIsSafeIff` says exactly when that is harmless, and three lemmas show what happens
  otherwise.
- `execution/halt.py:64-66` says a trigger that fires halts even without equity history. A failing read of
  that history, unlike an empty one, is not caught, and then nothing is halted.
- `risk/sizing.py:24` needs a volatility for every decided name, even one that gets no weight;
  `Sizing.SizeBook` states that as an error case.

## Model

| member | source | states |
|---|---|---|
| `SequentialTest.RunIsTheTerminalRule` | evaluation/sequential.py:200-234 | Folding the weekly update over any history gives exactly the terminal rule: the status is set by the first week from the minimum on at which a crossing occurs, conflicting evidence and an exhausted window included, and later weeks never change it. |
| `SequentialTest.OutcomeIsFrozen` | evaluation/sequential.py:200-204 | A status reached on some history is the status of every longer one. |
| `SequentialTest.MirrorReflection` | evaluation/sequential.py:209-210 | Along every sequence the mirror and the quant process have negated sums and means, equal deviations and variances, and at most one of them bets in any week. |
| `SequentialTest.NegatingSwapsQuantAndMirror` | evaluation/sequential.py:81-97 | Negating the quant series swaps the quant and the mirror states. |
| `SequentialTest.WealthStaysInBounds` | evaluation/sequential.py:81-97 | After t weeks the wealth lies between 1/2^t and (3/2)^t, and every denominator stays positive. |
| `SequentialTest.TestStatesAreProcesses` | evaluation/sequential.py:200-211 | The three states of a running test are the betting processes of the three clipped series observed so far. |
| `SequentialTest.BetIsTheStake` | evaluation/sequential.py:75-85 | The bet is nothing for a mean not above zero, and else the mean over the second moment, cut off at the cap; the product form determines it. |
| `SequentialTest.MomentsAreExact` | evaluation/sequential.py:87-97 | After any series the stored sum, mean, squared deviations and variance are those of the series, each deviation taken from the mean up to and including its own value. |
| `SequentialTest.WealthIsTheGrowth` | evaluation/sequential.py:87-97 | After any series the wealth is the product of one plus bet times value, every bet the one called for by the moments of the values before it. |
| `SequentialTest.VerdictIsExact` | evaluation/sequential.py:200-234 | The first deciding week settles the status for good: PASS if only both comparisons crossed, FAIL if only the mirror did, inconclusive if all did; without one the test runs until its window is over. Crossings are judged on the growth of the bets, not on the stored state. |
| `SequentialTest.ClippedYIsOdd` | evaluation/sequential.py:62-66 | Clipping commutes with negation, so the mirror bets on exactly the negated variable. |
| `ErrorBound.Ville` | evaluation/sequential.py:87-97 | On every finite probability tree whose conditional means of the clipped variable are not positive, the weight of the paths on which the wealth ever reaches a level is at most the starting wealth over that level. |
| `ErrorBound.ClaimsNeedCrossings` | evaluation/sequential.py:223-231 | The weight of the paths that end with a claim is at most the weight of those that cross the threshold on the side the claim is about. |
| `ErrorBound.TerminalKeepsItsWeight` | evaluation/sequential.py:201-204 | A terminal status carries all the weight below it. |
| `ErrorBound.PassErrorBound` | evaluation/sequential.py:223-229 | PASS has total weight at most 1/20 on every tree where either comparison is null. |
| `ErrorBound.FailErrorBound` | evaluation/sequential.py:223-231 | FAIL has total weight at most 1/20 on every tree where the quant comparison has nonnegative conditional means. |
| `LongRunVariance.BartlettLrv` | evaluation/sequential.py:120-134 | The accumulated sum equals 1/(nM) times the sum of squared zero-padded window sums, and is never negative, for every series and every bandwidth from 1 to n. |
| `LongRunVariance.WeightedIsSquares` | evaluation/sequential.py:131-134 | The Bartlett-weighted autocovariances are the sum of squared windows. |
| `LongRunVariance.GammaIsInner` | evaluation/sequential.py:131-132 | The lag-j term is the inner product of the series without its first j values and the series without its last j. |
| `LongRunVariance.DemeanedSumsToZero` | evaluation/sequential.py:128-129 | The demeaned series sums to zero and differs from the given one by a constant. |
| `TradeConditions.EvaluateConditions` | execution/trade_conditions.py:197-229 | The scan over the codes returns the combined eligibility defined by which readings occur among the codes: a disqualifying code decides, then unknown codes with the preferred reason, then conditional ones. |
| `TradeConditions.OrderOfCodesIsIrrelevant` | execution/trade_conditions.py:197-238 | Permuting or repeating codes never changes the result. |
| `TradeConditions.EligibilityPersists` | execution/trade_conditions.py:151-157 | Validating more map entries never changes a result that was not unknown. |
| `TradeConditions.EligibilityIsSound` | execution/trade_conditions.py:197-229 | Whatever the unknown codes mean, the two-valued meaning of the codes is one the three-valued result allows. |
| `TradeConditions.UndecidedIsExact` | execution/trade_conditions.py:225-226 | An unknown result is not avoidable: under some meaning of the unread codes the trade is disqualified, under another it is not. |
| `ReferenceRules.SequenceVerdicts` | execution/reference_rules.py:60-103 | The loop with its two flags computes the verdicts defined group by group from the history before each instant. |
| `ReferenceRules.JudgeGroup` | execution/reference_rules.py:76-99 | Each trade of one instant gets the verdict its eligibility, its ties and the two flags determine. |
| `ReferenceRules.SortIsAStableOrder` | execution/reference_rules.py:68 | Sorting by time is a sorted permutation. |
| `ReferenceRules.GroupsAreGrouped` | execution/reference_rules.py:72 | The groups of a sorted sequence are one instant each, at increasing instants. |
| `ReferenceRules.GroupsFlatten` | execution/reference_rules.py:134-135 | The groups put back together are the sequence. |
| `ReferenceSoundness.EntryIsJudgedRight` | execution/reference_rules.py:76-99 | In every completion of an instant, a trade judged qualifying sets the price and one judged not qualifying does not. |
| `ReferenceSoundness.GroupIsSound` | execution/reference_rules.py:120-131 | What one instant settles is what playing any completion of it does. |
| `ReferenceSoundness.SessionIsSound` | execution/reference_rules.py:60-103 | The decision over a whole session agrees with playing every completion of it. |
| `ReferenceSoundness.HistorySplits` | execution/reference_rules.py:60-68 | Every history in any tie order, with any allowed truths, is an instant-by-instant completion of the groups. |
| `ReferenceSoundness.BacktestIsSound` | execution/reference_rules.py:138-150 | A resolved backtest price is the price in force in every completion; no eligible trade means none is. |
| `ReferenceSoundness.HaltIsSound` | execution/reference_rules.py:153-173 | A resolved halt price is the first price set from the start instant in every completion; no eligible trade means none is set. |
| `ReferenceOrder.VerdictsPersist` | execution/trade_conditions.py:151-157 | Validating more map entries never changes a qualifying or disqualifying verdict. |
| `ReferenceOrder.ValidationKeepsReferences` | execution/reference_rules.py:138-173 | Validating more map entries never changes a resolved backtest or halt price. |
| `ReferenceOrder.DecisionIsCausal` | execution/reference_rules.py:165-173 | The halt decision over the trades up to an instant survives whatever comes later. |
| `ReferenceOrder.LaterTradesNeverMatter` | execution/reference_rules.py:165-173 | Replacing the trades after the deciding one never changes a resolved halt reference. |
| `ReferenceExactness.VerdictsAreMeant` | execution/reference_rules.py:60-103 | Every verdict in terms of the trades alone: a conditional trade counts exactly if no other trade at its instant or before might set the price, does not count if a price is in force for certain, and is undecided, for a named reason, otherwise. |
| `ReferenceExactness.BacktestIsExact` | execution/reference_rules.py:138-150 | The backtest reference is the price the last instant that matters sets, ambiguous exactly if two prices are set at it, undecided exactly if a trade at it is in doubt, and missing exactly if no instant matters. |
| `ReferenceExactness.HaltIsExact` | execution/reference_rules.py:153-173 | The same of the first instant that matters from the start on. |
| `ReferenceExactness.ClearBacktest` | execution/reference_rules.py:138-150 | If every trade is eligible or not and eligible trades of one instant agree, the backtest resolves to the price of the latest eligible trade. |
| `ReferenceExactness.ClearHalt` | execution/reference_rules.py:153-173 | Under the same condition the halt reference is the price of the first eligible trade from the start on. |
| `ReferenceExactness.BacktestClashIsReal` | execution/reference_rules.py:127-131 | If the deciding instant has two prices, two histories of the trades leave different prices in force. |
| `ReferenceExactness.HaltClashIsReal` | execution/reference_rules.py:127-131 | Likewise two histories set different first prices after a halt. |
| `Broker.NoOverfill` | execution/executor.py:10-15 | In a coherent book that agrees with a target, an honest broker moves nothing against the target and nothing beyond it; a market order exists only beside a terminal limit order, and limit fills plus market quantity are the target. |
| `Broker.EvolvesKeepsCoherent` | execution/executor.py:10-15 | Fills, cancels, expiries and late acceptances keep every market order an exact residual of a terminal limit order. |
| `Broker.SentIsSafe` | execution/executor.py:358-417 | Sending a planned limit order, or what a terminal limit left, keeps a book that agrees with its plan in agreement: terminal orders are final. |
| `Broker.AgreedIsSafe` | execution/executor.py:10-15 | Over whole histories of the executor and the world: if every plan agreed, when it was taken up, with the orders the broker had and the requests under way, every moment is safe. |
| `Broker.Gateway.Submit` | execution/executor.py:213-226 | A request may be accepted now, later or never, and its answer lost; only a target's limit order or what a terminal limit left of it may be sent, and no buy while the switch is engaged. |
| `Executor.SubmitOnce` | execution/executor.py:213-226 | A failed submission is reconciled by reading the order back and never sent again: exactly one request leaves, and a failure is one of the broker. |
| `Executor.Leg.SubmitLimit` | execution/executor.py:358-375 | Exactly the target's limit request leaves, once, if the switch allows it, and nothing otherwise; on success the leg holds what the broker said, with its evidence stored. |
| `Executor.Leg.CancelLimit` | execution/executor.py:378-385 | A limit order still working at the re-read is asked to cancel exactly once, no other is; the leg holds a read no older than before, and a failure is one of the broker. |
| `Executor.Leg.CloseLimit` | execution/executor.py:388-402 | On success the limit is terminal, its evidence stored, no overfill happened and the residual is exactly what it left; a rejected limit leaves none. It fails as unconfirmed only for an order still working, as overfilled only beyond the target. |
| `Executor.Leg.SubmitMarket` | execution/executor.py:405-421 | At most one request leaves, the exact residual of the terminal limit order and only while the switch allows it; an order already there is adopted; nothing else of the leg changes. |
| `Executor.Leg.CloseMarket` | execution/executor.py:423-426 | On success both fills together stay within the target to a micro-share. |
| `Executor.Leg.Reference` | execution/executor.py:471-477 | A recorded reference price is always reused. |
| `Executor.PendingMaySend` | execution/executor.py:401-417 | A residual computed from a terminal read is still the residual when it is sent, because terminal orders are final. |
| `BookExecution.BookRun.Guard` | execution/executor.py:162-171 | A failing step becomes the name's own error and is reported; only an overfill stops all new exposure. |
| `BookExecution.BookRun.PollRound` | execution/executor.py:251-257 | One round re-reads every waiting order once, never a terminal one, and returns exactly the legs whose order is still open; it ends early only for a failure of the broker. |
| `BookExecution.BookRun.AwaitAll` | execution/executor.py:246-259 | Every order still open at the end was polled as often as allowed; a failed re-read is nobody's own error and ends the call. |
| `BookExecution.BookRun.Gate` | orchestration/execution_stage.py:195-213 | A gate that returns is noted with the number of durable events it read and with its reading of the account. It leaves the switch off only after a new reading that sets off no trigger; a switch it engages was set off by the first durable event or by that reading, and then nothing is left working. It submits nothing and fails only with a cause. |
| `BookExecution.BookRun.Drive` | execution/executor.py:176-203 | Requests leave phase by phase: after a gate limit requests, after another market requests, for each leg at most one of a kind, every gate watched. The switch is a latch. If the phases come to an end every name without an error is finished: its limit terminal with evidence, its residual sent, blocked or withheld after an overfill, its market evidence stored. An early end has a failure outside, an unconfirmed cancel or an unusable account as its cause. |
| `ExecutionStage.ExecuteBook` | execution/executor.py:128-209 | However it ends, requests left in phase order and no buy followed an engaged switch or a gate that had read a halt event. A normal return reports each target's fills, no less than what was filled when the call began, and its completeness and blocking truthfully; a bad target is refused exactly, and any other failure is a name's own, an unusable account or one outside. |
| `ExecutionStage.HeedsIsObedient` | risk/kill_switch.py:113-115 | Once the switch is engaged, or a gate has read a durable event, only sells are submitted for the rest of the execution. |
| `ExecutionStage.BuysAreWatched` | orchestration/execution_stage.py:195-213 | Every buy follows a gate of the same execution that read no durable event and rests on a new reading of the account that sets off no trigger, with nothing but requests in between. |
| `ExecutionStage.OncePerTarget` | execution/executor.py:5-15 | With distinct names an execution submits at most one limit and one market request per target, and no limit request after a market request. |
| `ExecutionStage.OutcomeReports` | execution/executor.py:428-432 | A finished leg's outcome says what the broker and the store hold, and no less than the broker held when the call began. |
| `ExecutionStage.FilledIsComplete` | execution/executor.py:428-432 | With the switch off, a target that is not complete was not filled when the call began, or its limit order is rejected. |
| `ExecutionStage.Retries` | execution/executor.py:124-153 | Targets that agreed with the broker when they were first taken up do so after any number of re-executions, with lost answers, failures and crashes, so nothing is overfilled. |
| `ExecutionStage.NeverOverfilled` | execution/executor.py:10-15 | If every plan agreed when it was taken up, at no moment in a gateway's history was a target overfilled, moved the wrong way, or its residual sent while its limit could fill. |
| `ExecutionStage.ReplannedAgrees` | orchestration/execution_stage.py:329-358 | With no limit request of the run travelling, a new plan agrees with the broker. |
| `Replanning.ReplanIsSafeIff` | orchestration/execution_stage.py:329-358 | Over all runs of the executor from a new plan, nothing is ever overfilled or moved the wrong way if and only if every request travelling for a planned name without an accepted limit order is for the planned side and quantity. |
| `Replanning.LateLargerRequest` | orchestration/execution_stage.py:329-358 | Two shares are under way and one is planned: two are bought. |
| `Replanning.LateOppositeRequest` | execution/executor.py:213-226 | A buy is under way and a sell is planned: the buy is read back, the leg counts as complete, and the position moved the wrong way. |
| `Replanning.LateSmallerRequest` | orchestration/execution_stage.py:333-345 | One share is under way and two are planned: the second is bought, the process dies, and the next attempt takes one share as its target and calls it complete. |
| `Planning.PlanTargets` | orchestration/execution_stage.py:106-136 | Fails exactly when equity is unusable, a book name has no symbol or a wanted or held name no price; otherwise filling every target turns each position into floor(weight * equity / price) whole shares. |
| `Planning.DesiredIsAffordable` | orchestration/execution_stage.py:130 | The wanted number is the most whole shares that the name's part of the equity pays for. |
| `ExecutionStage.Merge` | orchestration/execution_stage.py:347-358 | A result is the existing target of its name or a planned one; all existing targets are kept, planned ones of other names added, one per name in order of security. |
| `ExecutionStage.Targets` | orchestration/execution_stage.py:329-358 | Every name is covered: a limit order the broker had keeps its side and quantity, and for any other name filling its target turns the positions just read into what the book wants of the equity just read, unless a limit order turned up meanwhile. It refuses exactly what cannot be planned. |
| `ExecutionStage.Stage.ExecuteRun` | orchestration/execution_stage.py:163-243 | A row stored as executed has its limit evidence stored and, if every plan agreed when taken up, every target filled on its side to a micro-share; it is moved, and anything is sent, only for a plan made in this call that covers every name. Requests leave in phase order and obey the switch; an executed or halted row is never driven again and sends nothing. Each answer is true: executed has been earned, a halted run has nothing working, an engaged switch has a durable event, an incomplete run lacked a fill when the call began. Each failure has a cause, outside or in what was stored, asked for or read. |
| `ExecutionStage.Replays` | orchestration/execution_stage.py:10-22 | Any number of calls with any inputs, across lost answers, failures and crashes: an executed row has its evidence, and if every plan agreed when taken up an honest broker moved exactly the targets, to a micro-share. |
| `ExecutionStage.Stage.MarkExecuted` | store/write.py:500-509 | Moves only an anchored row, and answers true only when it moved. |
| `ClientOrderIds.IdsAreDistinct` | execution/executor.py:79-81 | Client order ids of two legs are equal only for the same run, security and leg. |
| `Halting.HaltController.CancelRound` | execution/halt.py:147-152 | A round asks for the cancel of exactly the listed orders and ends with all of them terminal; otherwise something outside failed or an order would not end. |
| `Halting.HaltController.CancelAllConfirmed` | execution/halt.py:141-155 | Normal return means the latest listing was empty, and every order that was asked to cancel is terminal; giving up means it was not empty. |
| `Halting.HaltController.Flatten` | execution/halt.py:122-127 | Exactly the positions reported as nonzero are closed, only after a listing without open orders; it fails only with the broker. |
| `Halting.HaltController.Halt` | execution/halt.py:114-139 | The switch is engaged first; unless the process dies exactly one record attempt is made, and its event says truthfully what was cancelled and whether this halt closed every reported position. |
| `Halting.HaltController.ManualHalt` | execution/halt.py:86-90 | Engages and records even after an automatic halt, and does nothing when already flattened. |
| `Halting.HaltController.SettleOpenOrders` | execution/halt.py:92-97 | In a halted state nothing is left working; otherwise nothing happens. |
| `Halting.HaltController.Check` | execution/halt.py:55-84 | One reading of the account decides: a loss strictly beyond the limit, else a stale or missing feed; the switch engages exactly for that trigger, with one event. Without a trigger the account must be calm and its history usable, and a refusal has that as its cause. An engaged switch makes it a no-op. |
| `Triggers.TriggersAreExact` | risk/kill_switch.py:55-83 | The loss trigger fires exactly when equity is below what the limit leaves of the prior close, the feed trigger exactly for a missing or late feed if the loss one does not. |
| `Evidence.KillSwitch.Halt` | risk/kill_switch.py:106-111 | The first trigger is kept and there is no way back. |
| `Evidence.KillSwitch.FromEvents` | risk/kill_switch.py:90-96 | The rebuilt switch is halted exactly when events exist, by the oldest event, first stored among equals. |
| `Evidence.ReplayKeepsFirst` | risk/kill_switch.py:9-12 | Replayed or duplicated events never change which one counts. |
| `Evidence.Recorder.RecordExecution` | execution/executor.py:340-344 | One upsert that may be lost or unanswered; the reference price recorded first is never overwritten and both legs share it. |
| `RunStore.InsertImmutable` | store/write.py:874-915 | Succeeds exactly when the presented rows contradict neither the table nor each other, then stores the first row of each new key and counts the new keys; chunking is invisible. |
| `RunStore.RowIsTaken` | store/write.py:293-321 | A presented row is taken by every run that is not halted, except as a step back from an advanced status. |
| `RunStore.MovesAreMade` | store/write.py:500-605 | The moves to ANCHORED and EXECUTED are made exactly from the status before, and an anchor is refused exactly if it is not of the commitment. |
| `RunStore.ReadBackIffAgrees` | store/write.py:904-914 | Reading back finds a difference exactly when rows disagree. |
| `RunStore.HaltSucceedsIff` | store/write.py:608-637 | A halt is refused exactly when the same trigger was recorded for another time; otherwise event and request are stored and exactly the haltable runs move. |
| `RunStore.SecondManualHaltFails` | store/write.py:614-626 | Two halts with one trigger at different times: the second is refused. |
| `RunStore.HaltedIsAbsorbing` | store/write.py:311-319 | No writer changes the row of a run a halt moved, and a reset is refused. |
| `RunStore.FlushReplays` | orchestration/sink.py:41-52 | Delivering a flush again changes nothing, the run row included. |
| `RunStore.MovesReplay` | store/write.py:500-637 | Delivering a move, a halt or a reset again changes nothing, and only the first delivery reports a move. |
| `StoreWriter.Store.RecordHalt` | store/write.py:608-637 | Event, request and move commit together or nothing changes in any run. |
| `StoreWriter.Store.ClaimRun` | store/write.py:653-696 | Returns the newest active run of the key; creates one only when none is active and none was halted, unless asked for a fresh start. |
| `StoreWriter.ClaimIsProtocol` | store/write.py:653-696 | What the claim loop leaves behind is a claim of the protocol on the stored fleet, or no change. |
| `RunProtocol.StepKeepsInv` | orchestration/tasks.py:369-416 | Every step of workers under the advance and execute locks, deaths, lost answers, halts, order evidence, upgrades, resets and the clock keeps the invariant and takes nothing back. |
| `RunProtocol.CommitKeepsRows` | orchestration/pipeline.py:436-456 | The commit flush of the lock holder stores rows that hash to the stored commitment. |
| `RunProtocol.ReportKeepsRows` | orchestration/pipeline.py:506-537 | A late PARTIAL or FAILED report changes nothing of a committed or halted run. |
| `RunProtocol.HaltKeepsRows` | store/write.py:608-637 | A halt keeps every stored row consistent, in whatever state it arrives. |
| `RunProtocol.AnchorKeepsRows` | orchestration/anchor_stage.py:96-136 | Marking anchored keeps the rows consistent and moves exactly a committed run. |
| `RunProtocol.ResetKeepsRows` | store/write.py:724-770 | An accepted reset leaves consistent rows of a pending run and takes nothing back, so no run that committed or was halted is ever reset. |
| `RunProtocol.PartialIsNoHalt` | orchestration/pipeline.py:379-434 | The pipeline's own PARTIAL reasons are never taken for a halt. |
| `RunProtocol.NeverBackwards` | store/write.py:293-321 | Over every interleaving a run never moves backwards, a halted row never changes, and a commitment keeps its hash, decisions and book. |
| `RunProtocol.MovesHappenOnce` | store/write.py:500-605 | COMMITTED to ANCHORED and ANCHORED to EXECUTED each happen, and so report true, at most once per run. |
| `RunProtocol.UnlockedCommitRegresses` | store/write.py:303-320 | Without lock and short-circuit a commit flush over an anchored row is accepted, and moves it backwards, if and only if it presents the committed rows. |
| `RunProtocol.VerificationNeverFails` | contracts/commitment.py:137-167 | Recomputing the commitment of any reachable committed run succeeds. |
| `RunProtocol.TamperingIsNoticed` | contracts/commitment.py:137-167 | With an injective hash the recomputation accepts exactly the rows that were committed, with no anchor or one of their hash. |
| `RunProtocol.OnlyResetRevives` | orchestration/tasks.py:369-385 | A failed or partial run becomes active again only by a reset. |
| `RunProtocol.ActiveStaysUnique` | store/write.py:653-696 | No worker step creates a second active run of a key. |
| `RunProtocol.ClaimsStayUnique` | store/write.py:683-696 | A claim adds at most one active run to a key that has none. |
| `RunProtocol.OneActiveAlways` | store/write.py:653-696 | Over every interleaving of claims and worker steps without resets, each mode, as-of and config has at most one active run at every moment. |
| `RunProtocol.ResetKeepsUniqueIff` | store/write.py:724-770 | A reset keeps one active run per key if and only if no other run of its key is active. |
| `RunProtocol.ResetCanDuplicate` | store/write.py:724-770 | A failed run, a second claim and a reset of the first give two active runs. |
| `Scorable.ExecutedIsAdmissible` | evaluation/scorable.py:179-304 | A stored executed live run, asked for after everything stored, is admitted if and only if the proof, the headers, the remote and the block time are favourable. |
| `Scorable.StoredRefusals` | evaluation/scorable.py:149-291 | For any reachable live run, exactly which refusal the stored rows can cause; the two stored times never cause one. |
| `Scorable.AdmitIsExact` | evaluation/scorable.py:149-304 | Whatever the rows are: a ticket is given exactly when the run is complete for its mode or halted on record, the rows hash to the commitment and a full anchor, and every outside answer is good. |
| `AdvanceRun.Run.AdvanceRun` | orchestration/tasks.py:369-385 | One delivery of the job, with anyone else acting between its calls and any call raising, dying or losing its answer, extends a run of the protocol. It reports that it advanced the run exactly if it anchored it; what it reports is never COMMITTED or a started status and is one the run had during the call; it skips only a locked run, and raises only when a call raised or the run was seen halted. |
| `AdvanceRun.Run.RunStep` | orchestration/pipeline.py:259-300 | A step short-circuits on a committed run, else works, flushes and anchors, every write a step of the protocol; it reports an advance exactly if it anchored the run, and never a run with work left to do. |
| `AdvanceRun.Run.AnchorRun` | orchestration/anchor_stage.py:91-136 | Verification never fails and the mark is never refused; the stage reports an advance exactly if its own call moved the run, and raises only when a call raised or the run was seen halted. |
| `AdvanceRun.OneCallReports` | orchestration/anchor_stage.py:74-79 | Of all calls ever made for a run at most one reports that it anchored it. |
| `Pooling.ApplyFloor` | committee/pooling.py:97-114 | On a distribution with floor * n at most 1 the loop ends without its fallback and returns the water-filling of raw at one scale in (0, 1], summing to one. |
| `Pooling.Round` | committee/pooling.py:104-114 | Each round either finishes with the water-filling or leaves a positive scale, no larger than the last, for a larger pinned set. |
| `Pooling.FillingIsUnique` | committee/pooling.py:97-114 | Any two scales that make the total one give the same weights. |
| `Pooling.FillingKeepsOrder` | committee/pooling.py:97-114 | The result keeps the order of the raw weights and the floor. |
| `Pooling.SkillWeights` | committee/pooling.py:77-94 | A distribution proportional to nonnegative skill, equal when nobody has any; refused exactly when a history is empty. |
| `Pooling.BrierIsZeroIff` | committee/pooling.py:53-56 | The score is never negative and zero exactly for forecasts that were all right. |
| `Pooling.MeanIsBestConstant` | committee/pooling.py:53-56 | The score is proper: among constant forecasts the mean outcome is the best, any other pays for its squared weighted distance. |
| `Pooling.SkillIsExact` | committee/pooling.py:87-90 | Skill is the part of the base rate's score that the forecasts saved, positive exactly if they scored better and one exactly if they were all right and the base rate was not. |
| `Pooling.MixIsDistribution` | committee/pooling.py:154 | The mixture of equal and skill weights is a distribution. |
| `Pooling.MixIsExact` | committee/pooling.py:154 | The mixture sums to one and shrinks every difference in skill by lambda. |
| `Pooling.PoolWeights` | committee/pooling.py:147-155 | The weights of a horizon sum to one, none is under the floor, and they keep the order of the mixture. |
| `Stacker.HessianIsPsd` | committee/stacker.py:66-75 | For nonnegative weights and gammas the accumulated Hessian is positive semidefinite, so the determinant is never negative. |
| `Stacker.DirectionDescends` | committee/stacker.py:78-82 | Every search direction, Newton or steepest descent, has nonpositive slope. |
| `Stacker.DirectionHeads` | committee/stacker.py:78-82 | The search direction solves the Newton equations if the determinant is usable and is the steepest descent otherwise. |
| `Stacker.GradientIsTangent` | committee/stacker.py:61-75 | For a convex loss the objective lies above every tangent plane whose slope is the accumulated gradient. |
| `Stacker.HessianIsTheDerivative` | committee/stacker.py:66-75 | To first order the gradient changes by the accumulated matrix. |
| `Stacker.FlatIsNearlyBest` | committee/stacker.py:76-77 | Where the solve stops for a flat gradient, no point within a distance is better by more than the tolerance times that distance. |
| `Stacker.Accumulate` | committee/stacker.py:64-75 | One pass computes the gradient and Hessian sums. |
| `Stacker.LineSearch` | committee/stacker.py:83-90 | Halving ends; the accepted step is the first of 1, 1/2, 1/4, ... that meets the decrease condition and never raises the objective; a refusal means that none above the smallest does. |
| `Stacker.Solve` | committee/stacker.py:57-92 | The path from (anchor, 1): each step goes from where the gradient is not yet flat along the search direction, by the first halved step that meets the decrease condition; the path ends where the gradient is below the tolerance, where no step helps, or after the last allowed iteration, at a point no worse than the start. |
| `Stacker.FitStacker` | committee/stacker.py:95-135 | Refused exactly without observations or weight; pass-through until enough periods; else the base rate is the clipped weighted mean outcome and the fit is the end of such a path from it with slope one. |
| `Stacker.OutcomeMean` | committee/stacker.py:122 | The weighted mean outcome lies between the outcomes. |
| `EffectiveAgents.UnitDot` | committee/stacker.py:167-168 | Cauchy-Schwarz for unit vectors. |
| `EffectiveAgents.CenteredIsExact` | committee/stacker.py:155-160 | The centered errors sum to zero and differ from the errors by a constant. |
| `EffectiveAgents.ClampNeverBites` | committee/stacker.py:168 | The clamp to [-1, 1] never changes a correlation. |
| `EffectiveAgents.AddRows` | committee/stacker.py:164-168 | A plus twice the summed correlations is the squared length of the sum of the unit error vectors. |
| `EffectiveAgents.EffectiveNumber` | committee/stacker.py:138-174 | Refused exactly for too little data, constant errors or unit error vectors that cancel out; otherwise N_eff is at least one and equals A squared over the squared length of their sum, and the mean correlation lies in (-1/(A-1), 1]. |
| `Sizing.CapSectors` | risk/sizing.py:27-34 | In place and in any order, every sector over the cap is scaled pro rata. |
| `Sizing.CappedMeetsCaps` | risk/sizing.py:27-34 | After capping every sector is within its cap and no weight grew. |
| `Sizing.RiskScaleWorks` | risk/sizing.py:62-65 | One scale brings volatility to the target and gross exposure to one. |
| `Sizing.FinalBook` | risk/sizing.py:62-82 | Scaling and removing dust leaves a book within all limits at once, no weight above its raw one. |
| `Sizing.HeldMembers` | risk/sizing.py:80-82 | A name is in the book exactly if it has a weight left. |
| `Sizing.FinishBook` | risk/sizing.py:60-83 | Fails exactly for a name without a sector or a volatility; otherwise the book is the layered book of the weights it was given, within all limits at once. |
| `Sizing.SizeBook` | risk/sizing.py:37-83 | The book is the layered book of one clipped weight per decided name, that of its last decision: position cap, every sector cap, gross, volatility and minimum hold together, no weight exceeds the raw one, and every decided name needs a sector and a volatility. |
| `Sizing.TopIsBest` | risk/sizing.py:115 | Every chosen name outranks every other eligible one. |
| `Sizing.RawWeights` | risk/sizing.py:113-126 | Rank mode: the chosen names are the best M with a volatility, or all of them, and each weighs its inverse volatility as a part of their total times its bear multiplier. Calibrated mode: a name has a weight exactly if it has a volatility and its edge reaches the hurdle. |
| `Sizing.RankWeightsSum` | risk/sizing.py:114-118 | Rank weights together are at most the largest bear multiplier. |
| `Sizing.SizeCommitteeBook` | risk/sizing.py:86-148 | In either mode the book is the layered book of the bounded raw weights, within all limits, no weight above its raw one; it fails exactly for an active fit without a base rate or a weighted name without a sector. |
| `SizingExactness.BookIsExact` | risk/sizing.py:60-83 | The book is exactly the names whose weight, under their sector's cap and at the one scale of the book, is not dust, with that weight. |
| `SizingExactness.RiskScaleIsLargest` | risk/sizing.py:62-65 | No larger factor would meet the volatility target and the gross limit. |
| `SizingExactness.SectorScaleIsLargest` | risk/sizing.py:27-34 | No larger factor would bring the sector under its cap. |
| `SizingExactness.BaselineIsExact` | risk/sizing.py:48-55 | A name without volatility, below the entry probability, without an edge or with too much dispersion weighs nothing; any other its shrunk edge per unit of volatility. |
| `SizingExactness.ClippedIsNearest` | risk/sizing.py:56-58 | Too small a weight is dropped, any other is moved to the nearest allowed one. |
| `SizingExactness.RankWeightsFill` | risk/sizing.py:114-118 | With one bear multiplier for all, the chosen names together weigh exactly that. |
| `SizingExactness.CalibrationKeepsOrder` | risk/sizing.py:119-126 | With a positive slope the calibrated probability keeps the order of the logits. |
| `SizingExactness.SumsSplit` | risk/sizing.py:22-34 | Gross exposure, sector sums and variance add up over any division of the book. |
| `Cio.ApprovedBook` | agents/cio.py:66-80 | An approved book keeps every limit and every surviving weight, loses at most the allowed names, and moves exactly the vetoed weight to cash. |
| `Cio.DecisionIsTaken` | agents/cio.py:51-80 | A decision is taken exactly if it rules on every proposed name and no other and vetoes no more than the allowed share; beyond the share it is an alert. |
| `Cio.RunCio` | agents/cio.py:107-187 | At most two calls, the second only after an unusable answer; the outcome is determined by the last reply: the proposed book, the approved one of a decision that can be taken, an alert, or a raise. One dead letter exactly for an alert, a lost or unusable answer or an exhausted budget; every priced answer is charged, whatever follows. |
| `AgentBudget.RunBudget.Charge` | agents/base.py:78-84 | The cost stays booked whether or not the ceiling is reached. |
| `AgentBudget.RunAgentCall` | agents/base.py:236-365 | At most two calls; one over budget is never sent; one dead letter exactly for lost and over-budget calls; the spend ends less than one call above the ceiling. |
| `AgentRunner.CallIsSteps` | agents/base.py:309-365 | The attempt loop of one call is a run of its own job in the interleaved model: the same steps leave the end, the spend and the dead letters that the loop reports. |
| `AgentRunner.StepKeepsInv` | agents/runner.py:116-166 | Every interleaving of the jobs keeps the permits, the spend bound and the bookkeeping of every job. |
| `AgentRunner.SpendIsBounded` | agents/base.py:78-84 | Started below the ceiling, the spend stays below the ceiling plus concurrency times the dearest call. |
| `AgentRunner.ReturnAccountsForAll` | agents/runner.py:116-169 | At return every job is in exactly one result set, with exactly one dead letter if aborted or lost and none otherwise. |
| `AgentRunner.StepsRunOut` | agents/runner.py:116-166 | Every step leaves fewer, so every run ends. |
| `AgentRunner.NeverStuck` | agents/runner.py:126-153 | Until every job has finished some job can move. |
| `SlidingWindow.WindowHoldsLimit` | ingest/edgar_client.py:26-39 | Any half-open interval one window long holds at most the limit of grants. |
| `SlidingWindow.CountIsExact` | ingest/edgar_client.py:26-39 | What is counted in an interval is the number of grants in it. |
| `SlidingWindow.Limiter.Call` | ingest/edgar_client.py:80-88 | One atomic call evicts, grants or answers the wait, as the script says, and keeps the history spaced. |
| `SlidingWindow.Limiter.NeverOverLimit` | ingest/edgar_client.py:26-39 | The limit holds over the whole history of a limiter. |
| `SlidingWindow.ExpiryIsInvisible` | ingest/edgar_client.py:32-34 | Over every history a key that expires a window and a second after its newest grant, which a refused call does not put off, holds and answers the same as one that never expires. |
| `SlidingWindow.WaitIsExact` | ingest/edgar_client.py:37-38 | Uncontended, a later call is granted if and only if the answered wait has passed. |
| `SlidingWindow.Limiter.AcquireAlone` | ingest/edgar_client.py:60-67 | Uncontended, the second attempt is granted. |
| `TokenBucket.GrantsAreBounded` | agents/llm/ratelimit.py:14-30 | Grants in any interval of time total at most the capacity plus the refill of that time. |
| `TokenBucket.GrantIsTaken` | agents/llm/ratelimit.py:23-26 | What a call is granted is exactly what it takes out of the bucket. |
| `TokenBucket.LeftAtLeast` | agents/llm/ratelimit.py:14-30 | After any history the bucket holds at least the refill since any instant, up to the capacity, less what was granted since. |
| `TokenBucket.GrantedWhenItFits` | agents/llm/ratelimit.py:14-30 | A call is granted whenever it fits into the capacity together with what the last minute was granted. |
| `TokenBucket.ExpiryIsInvisible` | agents/llm/ratelimit.py:27-28 | Over every history the bucket with the 120 second expiry holds and answers the same as one that never expires. |
| `TokenBucket.FullAfterAMinute` | agents/llm/ratelimit.py:50-52 | After an idle minute a bucket is full. |
| `TokenBucket.WaitSuffices` | agents/llm/ratelimit.py:25-26 | Uncontended, a later call is granted if and only if the answered wait has passed. |
| `TokenBucket.StaysInRange` | agents/llm/ratelimit.py:23-26 | The bucket never holds less than nothing or more than its capacity. |
| `TokenBucket.SharedBucket.Charge` | agents/llm/ratelimit.py:14-30 | One atomic script call stores and answers what the history of calls determines. |
| `TokenBucket.SharedBucket.AcquireAlone` | agents/llm/ratelimit.py:54-61 | Uncontended, one wait is enough. |
| `CalendarBuild.BuildCalendar` | evaluation/calendar_rules.py:108-148 | Refused exactly when a chosen coverage row does not match its versions or a covered date was revised after every row over it; otherwise it exposes the newest version of every covered date that has one, over the chosen ranges. |
| `CalendarBuild.ExposedIsHashed` | evaluation/calendar_rules.py:124-146 | Every exposed session belongs to the version set hashed by a newest coverage row over its date. |
| `CalendarBuild.ExposedWasWritten` | contracts/market_data.py:59-76 | With an injective hash the exposed session is one of the lines written with that row. |
| `CalendarBuild.ByRangeIsNewest` | evaluation/calendar_rules.py:112-119 | Each range keeps its newest row. |
| `CalendarBuild.CurrentIsInForce` | evaluation/calendar_rules.py:124-134 | A row is compared with exactly one version per date of its range that had any by the row's own time, the newest of them. |
| `CalendarBuild.ConfirmedIsExact` | evaluation/calendar_rules.py:124-146 | Looking at the newest row of each range is as good as looking at every row. |
| `TradingCalendar.StepLoop` | evaluation/calendar_rules.py:60-71 | The loop returns the nearest session beyond a day, or fails where coverage ends. |
| `TradingCalendar.WalkForward` | evaluation/calendar_rules.py:60-71 | A step forward returns a day exactly when it is the next session with every day between known to be closed. |
| `TradingCalendar.WalkIsDecided` | evaluation/calendar_rules.py:60-71 | In either direction the first date that is not a known closed day decides. |
| `TradingCalendar.PreviousUndoesNext` | evaluation/calendar_rules.py:91-96 | On session dates the previous session of the next session is where one started. |
| `TradingCalendar.HorizonSession` | evaluation/calendar_rules.py:98-105 | The loop returns the composition of steps, or the error of the first that fails. |
| `TradingCalendar.HorizonCounts` | evaluation/calendar_rules.py:98-105 | Exactly h sessions lie after d0 up to the result, and every date walked is covered. |
| `TradingCalendar.HorizonReaches` | evaluation/calendar_rules.py:98-105 | Conversely the h-th session is found if every date up to it is known and no closed stretch is as long as a whole walk. |
| `TradingCalendar.SessionsAre` | evaluation/calendar_rules.py:98-105 | What is counted between two dates is the number of open days. |
| `TradingCalendar.HorizonsAdd` | evaluation/calendar_rules.py:98-105 | Horizons compose additively. |
| `TradingCalendar.SessionClosingAfter` | evaluation/calendar_rules.py:73-85 | The loop returns the first match of the recursive walk, or where coverage ends. |
| `TradingCalendar.ClosingAfterIsFirst` | evaluation/calendar_rules.py:73-85 | The first date that is not known to be over decides: its session, or the end of coverage; if all dates of the walk are over there is none. |

## Left out

- ExecutionStage.Stage.ExecuteRun: that targets are filled is promised only for runs whose plans agreed, because otherwise it is false (`Replanning.ReplanIsSafeIff`). Whether the stored commitment, anchor and snapshot make the run eligible is an input here; what they are is in `RunProtocol` and `Scorable`. Dead letters and the records an outcome carries are not modelled.
- ExecutionStage.Stage.Others: other workers may anchor or halt the row at two points of a call; what exactly they do is in `RunProtocol`.
- ExecutionStage.Merge: the sort by security is the order in which the names are visited.
- Executor.Leg.SubmitLimit: does not model limit prices, collars, fill prices or slippage.
- BookExecution.BookRun.Drive: the shared wait and all sleeping are left to the broker's freedom to change between calls.
- Broker.Gateway.OpenOrders: orders of other accounts or other systems do not appear.
- Halting.HaltController.Check: the drawdown figure in the event is not computed, only whether it can be.
- RunProtocol.StepKeepsInv: live runs only; backtests resume without a lock. A worker that loses its advisory lock while still writing is outside what the source handles and outside this model. Verdict and dead-letter rows are not part of it.
- RunProtocol.OneActiveAlways: false with resets; `RunProtocol.ResetKeepsUniqueIff` says exactly when a reset breaks it.
- AdvanceRun.Run.AdvanceRun: the lock is released with the call; a process that dies is taken to release it at once. An answer of ANCHORED may be of a run that was halted while it was being marked, as in the source (`orchestration/anchor_stage.py:125-136`).
- Scorable.ExecutedIsAdmissible: proof binding, Bitcoin headers and the git remote are answers from outside.
- Stacker.Solve: that its path reaches a flat point within the allowed iterations is not claimed; the source does not rely on it either.
- Stacker.GradientIsTangent: convexity of the loss and the first-order behaviour of the logistic function are parameters of the problem, not derived from a definition of the exponential.
- Stacker.FitStacker: the logit of the base rate is a function parameter.
- Pooling.PoolWeights: pooled logits, dispersion and the shrinkage exponent are not computed; the shrinkage enters as a number in [0, 1].
- Sizing.SizeBook: the bear multiplier is part of the decision instead of a lookup by severity.
- Cio.RunCio: prompts, parsing and the identity of the served model are reduced to the kind of reply.
- AgentRunner.StepKeepsInv: jobs are numbered, so two jobs never share a task key; telemetry, verdicts and the verdict cache's contents are not modelled.
- AgentBudget.RunAgentCall: without a cache and without other threads; `AgentRunner.CallIsSteps` places it among all threads.
- SlidingWindow.Limiter.Call: the in-process limiter with float seconds is the same algorithm and is not repeated.
- The TOST diagnostic, its lag rule and the table of critical values; simulation.
- Anchor stamping, git pushes, the upgrade loop and its counters; the sweepers and schedules.
- HTTP clients, the broker's wire formats, Celery, FastAPI, the CLI, SQL text, migrations and validation of inputs.
- Text masking, prompts, features, the universe snapshot and the gate model.
- JSON canonical bytes and SHA-256; decisions are held by key, so the order in which they are hashed does not arise.
