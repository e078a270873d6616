# Verified model of the trading bot's core

This project models the parts of the trading bot whose correctness spans many calls, and proves what
the rest of the system relies on: what a stream of order events amounts to whatever its arrival
order, that a backtest never creates or loses money, what several processes sharing a Redis key can
and cannot do to each other, where a sizing refactoring kept its meaning and where it did not, and more.

Amounts and prices are exact reals. Clocks, random draws, broker replies, token validity and strategy
signals are inputs, so every theorem holds for all of them. Code that updates fields or runs loops is
a class or a method proved against a specification function; the theorems are about that function.
Protocols in which several processes interleave are step functions over the shared state, and the
theorems hold for every sequence of steps.

Check everything with `dafny verify dfyconfig.toml`.

## Modules

| module | file | subject |
|---|---|---|
| OrderLifecycle | OrderLifecycle.dfy | one order's record and reorder buffer, as values; confluence |
| OrderMachine | OrderStateMachine.dfy | the in-memory order state machine |
| Replay, Harness | DeterministicReplay.dfy | offline replay, its agreement with live delivery, and the harness that runs it |
| Backtest, Engine | BacktestEngine.dfy, Engine.dfy | the day loop, its ledger and the accounting identity; the engine that runs it |
| BacktestRules | BacktestRules.dfy | the engine's rules for exits, sizes, entries and ages, from prices and draws alone |
| FillSimulation, Costs | FillSimulation.dfy, Costs.dfy | what the engine needs of fills and transaction costs |
| TradePnl | TradePnl.dfy | first-in-first-out lot matching against a share-by-share queue |
| LeaderElection | LeaderElection.dfy | the Redis lease, leader flags and generations of any number of nodes |
| RuntimeState | RuntimeState.dfy | compare-and-set on the shared trading state |
| BrokerHealth | BrokerHealth.dfy | failover, alone and composed with the trading state |
| Cpcv | Cpcv.dfy | combinatorial purged cross-validation |
| CpcvFolds | CpcvFolds.dfy | what each fold is, and when a split raises |
| RateLimiter | RateLimiter.dfy | the token bucket under interleaved waiters |
| Sizing | Sizing.dfy | the flat sizing formula and the five-step pipeline |
| Portfolio, RiskBudget | Portfolio.dfy | positions and their stored copy; the risk budget over runs |
| Reconciliation | Reconcile.dfy | one-pass reconciliation with the broker |
| Incidents | Incidents.dfy | cached severity and throttle, and the cascade |
| Drift | Drift.dfy | single-pass maximum drawdown |
| Common | Common.dfy | optional values and arithmetic helpers |

## Where the code and its documentation differ

The model follows the code. These differences are themselves stated as lemmas.

- An event older than the last applied one is documented as buffered and replayed once the gap
  closes. It is buffered, but no flush ever applies it (`OrderLifecycle.StaleNeverReplayed`).
- A replay is documented to sort by order id and then sequence number, and sorts by sequence number
  and then order id. The ledger is the same either way (`Replay.RunIsPermutationInvariant`).
- An exit that the simulator does not fill is not an exit at all, yet the engine records a trade of no
  shares and charges the sale's cost, whenever the fill draw fails (`Backtest.UnfilledExitStillPays`).
- The backtest engine promises no look-ahead, yet takes average daily volume and the entry bar's
  volume from the last rows of the whole data set. That changes what it buys
  (`Backtest.TomorrowChangesToday`), and it is the only way in which it does look ahead
  (`Backtest.NoLookAheadIff`).
- `stop()` releases the leader lock and leaves the leader flag set
  (`LeaderElection.StoppedNodeKeepsFlag`). A generation drawn after the lease has lapsed can outrank
  that of the lock's owner (`LeaderElection.StaleLeaderCanOutrankOwner`);
  `LeaderElection.FreshLeaderOutranksAllIff` says exactly when generations do rank.
- HALTED is documented to be left by an operator only; a forced write of a milder state leaves it too
  (`RuntimeState.ForcedWriteLeavesHalted`, `RuntimeState.HowHaltedIsLeft`).
- `n_folds` is called the total number of folds. With two or more test groups it is so only without
  embargo and purge (`Cpcv.EveryFoldYieldedIff`), because both reach from the first test index to the
  last; with one test group it depends on the group bounds and labels (`Cpcv.OneTestGroupIff`,
  `Cpcv.OneEmbargoedGroupIff`).
- The sizing pipeline is presented as a refactoring of the flat formula. Without market data it gives
  the same share count for every account exactly when `Sizing.PipelineAgreesIff` says so. Under the
  repository's own settings that is when the signal brings a stop (`Sizing.DefaultSettingsAgreeIff`);
  without one the pipeline can overrun the risk budget (`Sizing.NearlySpentBudget`,
  `Sizing.KeepsBudgetIff`).
- The drawdown loop is called the maximum drawdown. For returns below a total loss it can understate it
  (`Drift.BelowTotalLoss`); `Drift.OnePassIsMaxExactly` says when it does not.
- The return to the primary broker is documented to check positions against the ledger; it asks only
  that positions can be listed (`BrokerHealth.BrokerHealthMonitor.HandleResult`). The mode recorded in
  Redis is written on changes alone, so a restart during a failover leaves it wrong until the next one
  (`BrokerHealth.RecordIsRightIff`).

## Model

| member | source | states |
|---|---|---|
| OrderMachine.OrderStateMachine.Transition | src/execution/order_state_machine.py:117-175 | a known order moves exactly along the twelve legal edges; its quantity and price become those given, its texts those given and not empty, and everything else stays |
| OrderMachine.OrderStateMachine.TransitionOrdered | src/execution/order_state_machine.py:199-279 | an event is applied at once exactly when it is the next in number and moves along an edge; a repeated or refused one changes nothing, any other is buffered with the record unchanged; the slot is what `Deliver` says, and no other order changes |
| OrderMachine.OrderStateMachine.Enqueue | src/execution/order_state_machine.py:241-248 | exactly one buffer entry is added or replaced |
| OrderMachine.OrderStateMachine.FlushPending | src/execution/order_state_machine.py:281-303 | the flush leaves the drained slot and no empty buffer |
| OrderMachine.OrderStateMachine.FlushNext | src/execution/order_state_machine.py:290-300 | one turn of the flush preserves what the whole flush will leave, and shrinks the buffer when it goes on |
| OrderMachine.OrderStateMachine.Register | src/execution/order_state_machine.py:107-109 | a registration replaces the record and keeps the buffer left under its id |
| OrderMachine.OrderStateMachine.ClearTerminal | src/execution/order_state_machine.py:187-193 | exactly the finished orders are forgotten, with their buffers, and counted |
| OrderLifecycle.OpenCanMove | src/execution/order_state_machine.py:187-193 | the orders kept are exactly those that some legal edge still leaves |
| OrderLifecycle.AcceptsAlongEdges | src/execution/order_state_machine.py:54-69 | an update is accepted exactly along one of twelve listed edges |
| OrderLifecycle.TerminalIffNoEdge | src/execution/order_state_machine.py:47-69 | the finished states are exactly those that no edge leaves |
| OrderLifecycle.Confluence | src/execution/order_state_machine.py:199-303 | two streams with the same set of updates, in any order and with any repetitions, leave the same record and the same entries that can still matter |
| OrderLifecycle.PermutationConfluence | src/execution/order_state_machine.py:199-303 | with distinct sequence numbers above the record's, every permutation of a stream leaves the same record and the same whole buffer |
| OrderLifecycle.StreamIsCanonical | src/execution/order_state_machine.py:230-279 | any stream leaves a fresh slot as draining its set of updates at once would |
| OrderLifecycle.OnceEachIsCanonical | src/execution/order_state_machine.py:230-279 | when each update comes once, the buffer is that of draining them at once too, stale entries included |
| OrderLifecycle.DrainIsLongestRun | src/execution/order_state_machine.py:281-303 | the record is the fold of the longest legal run of consecutive updates, and the buffer is everything beyond it but the update that ended it |
| OrderLifecycle.StaleNeverReplayed | src/execution/order_state_machine.py:230-249 | entries at or below the last applied number never influence the record again, and stay buffered |
| OrderLifecycle.StreamResult | src/execution/order_state_machine.py:199-303 | what a stream in which each number has one update leaves, in any order and with repetitions, from its updates alone: the longest run along edges, at most four, has been applied; the state is the last one's target, quantity, price and texts are those of the last one that gave any, and exactly what lies beyond waits |
| OrderLifecycle.RunLeavesRecord | src/execution/order_state_machine.py:153-165 | after a legal run the record stands at its last target, and each field holds what the last update to give it gave, or what it held before |
| OrderLifecycle.LegalRunIsEdgeRun | src/execution/order_state_machine.py:54-69 | a run is legal exactly when each update is there and moves along an edge from where the one before led |
| Replay.OrdersAreIndependent | src/backtesting/deterministic_replay.py:164-201 | what a replay leaves about an order depends on that order's events only |
| Replay.ArrangementIrrelevant | src/backtesting/deterministic_replay.py:152-162 | any two arrangements that keep each order's events in sequence replay to the same ledger |
| Replay.RunIsPermutationInvariant | src/backtesting/deterministic_replay.py:148-222 | a run is the same for every permutation of its input, and for the documented sort order |
| Replay.SkippedIsPermutationInvariant | src/backtesting/deterministic_replay.py:164-190 | the number of skipped events does not depend on their order |
| Replay.OfflineMatchesLive | src/backtesting/deterministic_replay.py:169-201 | an order registered before its transitions ends, record and buffer, as live deliveries of its updates, each once and in any order, would leave it |
| Replay.OfflineMatchesRepeatedLive | src/backtesting/deterministic_replay.py:169-201 | live deliveries that also repeat updates, any number of times and in any order, leave the same record and the same waiting updates that can still matter |
| Replay.SortedRises | src/backtesting/deterministic_replay.py:162-162 | replay goes by sequence number and, among equal ones, by order id |
| Replay.TextLeMeans | src/backtesting/deterministic_replay.py:162-162 | order ids are compared character by character, a proper prefix first |
| Replay.LedgerFromEvents | src/backtesting/deterministic_replay.py:164-211 | for an order registered at r the ledger shows r + n, where n is the longest run of its transitions without a gap that leads from NEW along named edges, the name of the last target, and as many pending as there are known transitions beyond r + n + 1 |
| Replay.OrderFromEvents | src/backtesting/deterministic_replay.py:169-201 | the whole record from the events: symbol, strategy and quantity of the registration, and in each other field what the last applied transition to give it gave; the buffer holds exactly the transitions beyond |
| Replay.ParsedIsNamed | src/backtesting/deterministic_replay.py:182-190 | exactly the eight state names are read, each as its own state |
| Replay.SkippedMeans | src/backtesting/deterministic_replay.py:165-190 | skipped are exactly the events that do nothing and the transitions to something that is not a state |
| Replay.KnownAfter | src/backtesting/deterministic_replay.py:169-178 | the orders known after a replay are those known before and those registered |
| Harness.ReplayHarness.Run | src/backtesting/deterministic_replay.py:148-222 | the result reports exactly the replayed book and the orders known before or registered; with distinct keys, each new order registered before its transitions shows the state, number and pending count that its events alone determine; every event counts as processed or skipped |
| Harness.ReplayHarness.Handle | src/backtesting/deterministic_replay.py:165-201 | one event takes the machine to the replayed book and is counted as it should be |
| Harness.ReplayHarness.ValidateLedger | src/backtesting/deterministic_replay.py:224-247 | the failures are the unmet expectations in order, and all pass exactly when the result reports every expected state |
| Replay.MismatchesAreUnmet | src/backtesting/deterministic_replay.py:232-247 | the failures are exactly the expected states that the result does not report, with what it reports instead |
| Backtest.SettleKeepsBalance | backtesting/engine.py:392-436 | a full, partial or empty sale moves a position's basis into cash and trades without creating or losing money |
| Backtest.ExitsDealWithAll | backtesting/engine.py:335-438 | the exit pass accounts for every position's basis and shares and keeps symbols distinct and quantities positive |
| Backtest.DaysAreSound | backtesting/engine.py:312-534 | at the end of every day cash plus the basis of open positions is the capital plus net profit, bought shares are traded or open, symbols are distinct, quantities positive, and positions within the maximum |
| Backtest.RunAccounts | backtesting/engine.py:536-572 | over a run the change in capital is the net profit of the trades less the basis of positions without a last price, which are exactly those carried |
| Backtest.CurveIsProfit | backtesting/engine.py:277-281 | every equity point is capital plus profit so far plus the open positions' gain over basis |
| Backtest.UnfilledExitStillPays | backtesting/engine.py:369-436 | with the engine's simulator, a position that reaches its stop, target or age always makes a trade; the trade is of no shares exactly when the fill draw exceeds the fill probability, and then cash falls by the cost of a full sale and the shares stay |
| Backtest.FailedDrawStillPays | backtesting/engine.py:369-436 | with the source's default costs and fills, a hundred shares at their stop stay unsold, and cash falls by the 1.59 dollars that selling them would cost |
| BacktestRules.ExitIsExact | backtesting/engine.py:335-438 | with the engine's simulator and costs, the exit check from the day's row and the position alone: no price, no change; neither stop, target nor time reached, a day older; otherwise one trade with the reason and price of the first of these, its exit price, quantity, cost, profit, and the cash and position it leaves |
| BacktestRules.TradesIff | backtesting/engine.py:336-366 | a position is traded exactly on a day with a price whose low reaches the stop, whose close reaches the target, or when its days are up |
| BacktestRules.ForceCloseIsExact | backtesting/engine.py:536-565 | the final close sells a whole position at the last close, with the trade and cash it leaves, and leaves one without a price alone |
| BacktestRules.RowOnIsLast | backtesting/engine.py:283-299 | a date's row is the last one with that date, and missing exactly when there is none |
| BacktestRules.AdvIgnoresOlder | backtesting/engine.py:301-309 | rows before the last twenty do not enter the average daily volume |
| BacktestRules.AdvOfRecent | backtesting/engine.py:301-309 | it is the mean volume times the mean close of up to twenty rows |
| BacktestRules.OrderSizeIsLargest | backtesting/engine.py:461-471 | the size is the largest that the risked part of the equity covers, or, when that is worth more than an equal share, the largest that such a share covers; at least one |
| BacktestRules.EnterIsExact | backtesting/engine.py:450-522 | a signal opens a position exactly when its symbol is not held, a place is free, there is a price, the cash covers the order and its draw does not fail; then with the stated price, stop, target at twice the stop's distance, days to live and cost |
| BacktestRules.AgesArePricedDays | backtesting/engine.py:334-343 | over rising dates, each open position was opened on one of them and its age is the number of later dates with a price |
| BacktestRules.ExitsInTurn | backtesting/engine.py:335-438 | positions are dealt with in the order held |
| BacktestRules.SignalsInTurn | backtesting/engine.py:450-523 | signals are taken in the order given |
| BacktestRules.StrategiesInTurn | backtesting/engine.py:443-448 | strategies come in the order given, and one that raised is as if it were not there |
| BacktestRules.EquityIsProfit | backtesting/engine.py:277-281 | every equity point is the capital, the profit of the trades so far, and what the open positions would gain at the close |
| Engine.EngineFollows | backtesting/engine.py:205-222 | every run of an engine with the source's cost model and simulator is under these rules |
| Backtest.NothingFilledIff | backtesting/fill_simulator.py:130-138 | a marketable order is not filled exactly when its draw exceeds the fill probability |
| Backtest.NoLookAhead | backtesting/engine.py:283-299 | two runs over markets that agree until a date, and in the liquidity figures of the symbols tradable by then, are the same until that date: every trade, position, draw and equity point |
| Backtest.NoLookAheadIff | backtesting/engine.py:301-309 | no settings, signals, costs or fills tell two such markets apart by that date if and only if those figures, taken from the end of the data, agree |
| Backtest.EntryOrderIff | backtesting/engine.py:476-490 | two entry orders are the same exactly when the average daily volume and the last row's volume, as used, are |
| Backtest.TomorrowChangesToday | backtesting/engine.py:481-482 | with the source's default costs and fills, a row for tomorrow makes the engine buy a thousand shares today instead of ten |
| Backtest.EntryOverdraft | backtesting/engine.py:473-503 | one entry leaves cash no lower than minus the notional times 2a + a^2, with the exact bound for notionals under the cost model's minimum |
| Engine.EngineOverdraft | backtesting/engine.py:473-503 | the same for the engine with its own cost model and simulator, with a the cost model's worst fraction |
| Engine.EngineAccounts | backtesting/engine.py:228-575 | the engine with its own simulator satisfies the identity on every day and at the end |
| Backtest.SimulatorFits | backtesting/fill_simulator.py:98-175 | the fill simulator meets what the accounting asks of fills, for any draws |
| Backtest.CostModelFits | backtesting/costs.py:110-209 | the cost model meets the overdraft bound's assumption with a = (spread/2 + base slippage + 10) / 10000 |
| Engine.BacktestEngine.CheckExit | backtesting/engine.py:336-436 | one position's exit check does to cash, positions, trades and the random stream what `Exit` says, and so what `BacktestRules.ExitIsExact` says of it |
| Engine.BacktestEngine.ManageExits | backtesting/engine.py:335-438 | the exit loop is the exit phase |
| Engine.BacktestEngine.AttemptEntry | backtesting/engine.py:473-522 | the cash check, fill and booking of one entry |
| Engine.BacktestEngine.TakeSignals | backtesting/engine.py:450-523 | the signal loop, which stops early, acts as if every signal had been considered |
| Engine.BacktestEngine.TakeEntries | backtesting/engine.py:443-523 | all strategies in turn, those that raised left out |
| Engine.BacktestEngine.ForceCloseAll | backtesting/engine.py:537-565 | the final close of all positions with a price |
| Engine.BacktestEngine.Run | backtesting/engine.py:228-575 | final capital, trades and equity curve are those of the whole run, and an empty date range returns the capital |
| FillSimulation.FillSimulator.SimulateFill | backtesting/fill_simulator.py:98-175 | the outcome and the number of draws it consumes, for any stream of draws |
| FillSimulation.FillConservesShares | backtesting/fill_simulator.py:116-175 | filled and remaining add up to the order, fills stay within capacity, FULL means nothing remains, a partial fill gets at least one share and half the capacity |
| FillSimulation.DrawsDecide | backtesting/fill_simulator.py:116-175 | nothing is filled exactly when the passive or the fill draw fails; otherwise an order within capacity is filled whole, and a larger one to the capacity or, when the next draw says so, to the drawn part of its upper half |
| FillSimulation.CapacityIsLargest | backtesting/fill_simulator.py:89-92 | the capacity is the largest whole number within both limits, or one |
| Costs.FillPriceBounds | backtesting/costs.py:185-209 | buyers pay between the nominal price and the worst fraction above it, sellers receive its mirror |
| Costs.PurchaseCostBounds | backtesting/costs.py:110-157 | a purchase costs between nothing and the worst fraction of its notional |
| Costs.SaleCostsMore | backtesting/costs.py:131-147 | a sale costs what a purchase does plus at most the regulatory fees |
| Costs.OneFraction | backtesting/costs.py:96-209 | buyers and sellers are priced off nominal by the same tiered fraction that a purchase is charged of its notional, and a sale is charged the exact regulatory fees on top |
| TradePnl.LotsRefineShares | src/portfolio/performance.py:136-183 | for fills in multiples of a common unit, as floats always are, the open lots and realised profit of a symbol are those of pairing each unit sold with the oldest unsold one of that symbol |
| TradePnl.SharesConserved | src/portfolio/performance.py:144-177 | every unit bought is paired with one sold or still open, and units sold short of any are ignored |
| TradePnl.MatchSellsOldest | src/portfolio/performance.py:156-177 | one sale consumes exactly the oldest units and realises exactly their gain |
| TradePnl.MatchInUnits | src/portfolio/performance.py:156-177 | for any quantities, matching scales with them: the unit they are counted in does not matter |
| TradePnl.MatchLots | src/portfolio/performance.py:156-177 | the matching loop ends, zero-quantity lots included, and leaves the matched lots and profits |
| TradePnl.ComputeTradePnl | src/portfolio/performance.py:136-183 | the fill loop produces the records of posting every fill in order |
| TradePnl.SalesMakeRecords | src/portfolio/performance.py:153-177 | records come from sales alone, after those before, each with its sale's symbol, strategy and day, and together worth what the sale earned |
| LeaderElection.LeaderOwnsLockIffFresh | src/control_plane/leader_election.py:152-198 | with no timing assumption, a leader that has not stopped owns the live lock exactly while less than a lease has passed since its last success |
| LeaderElection.AtMostOneLeader | src/control_plane/leader_election.py:152-262 | if leaders renew or step down in time, at most one running node is leader, and it owns the lock |
| LeaderElection.RenewalExtends | src/control_plane/leader_election.py:152-198 | from any reachable state, a leader that owns the live lock and renews stays leader with its generation and owns the lock for exactly one more lease, whatever others do; one that does not own it steps down |
| LeaderElection.RenewingLeaderStays | src/control_plane/leader_election.py:152-198 | over a run, a leader that renews strictly within each lease stays leader with its generation and owns the lock throughout, and every other node on standby stays there |
| LeaderElection.RenewingLeaderIsOnlyFresh | src/control_plane/leader_election.py:152-198 | from any reachable state, whatever the others' timing: any other running node that takes itself for leader has then let its lease lapse |
| LeaderElection.SoleLeaderStays | src/control_plane/leader_election.py:152-198 | and if the others are on standby or have stopped, it stays the only leader that has not stopped |
| LeaderElection.FailureStepsDown | src/control_plane/leader_election.py:163-167 | a failure ends leadership until the node acts again, whatever others do |
| LeaderElection.LateLeaderCanOverlap | src/control_plane/leader_election.py:152-184 | conversely, from any reachable state, a leader past its lease and any running node on standby can come to be leaders together, with no step of the late leader |
| LeaderElection.LateLeaderOverlaps | src/control_plane/leader_election.py:152-174 | a schedule on which two nodes hold the flag at once |
| LeaderElection.StoppedNodeKeepsFlag | src/control_plane/leader_election.py:123-135 | from any state, a leader that stops keeps its flag and never again owns the lock, whatever others do, until its own loop acts |
| LeaderElection.StoppedLeaderOverlaps | src/control_plane/leader_election.py:123-135 | so two nodes hold the flag with no time passing |
| LeaderElection.GenerationsAreDistinct | src/control_plane/leader_election.py:214-220 | generations handed out strictly increase and no two nodes hold the same one, whatever the timing |
| LeaderElection.FreshLeaderOutranksAllIff | src/control_plane/leader_election.py:214-220 | throughout a run every fresh claimant with a generation has the latest, if and only if each generation is drawn by a node whose lease is still fresh or while no other has a fresh claim and a generation |
| LeaderElection.StaleLeaderCanOutrankOwner | src/control_plane/leader_election.py:214-220 | a schedule where that fails: a node that lost the lock outranks its owner |
| RuntimeState.RunIsLinear | src/runtime_state.py:188-246 | under any interleaving each successful transition moved the value from exactly its expectation along a legal edge, with no write since it watched |
| RuntimeState.OneWinnerPerVersion | src/runtime_state.py:209-231 | of all attempts that watched the same version at most one succeeds |
| RuntimeState.RefusedMeansOvertaken | src/runtime_state.py:240-246 | an attempt is refused at commit exactly when another write came after its watch |
| RuntimeState.TransitionOutcome | src/runtime_state.py:165-246 | from any reachable store and under any interleaving, exactly when a transition ends in each of its five answers: it succeeds, its target written, if and only if token and pair are valid, the value was the expected one when read, and no write came since its watch |
| RuntimeState.ForceOutcome | src/runtime_state.py:252-303 | a forced write succeeds, whatever the value, if and only if its target is protective, the secret is ready, and no write came since its watch |
| RuntimeState.LegalPairs | src/runtime_state.py:67-72 | the legal pairs are nine listed ones |
| RuntimeState.ActiveNeedsTransition | src/runtime_state.py:188-231 | the value becomes ACTIVE only by a transition that its caller began with a valid token |
| RuntimeState.RunIsGranted | src/runtime_state.py:188-197 | every transition that wrote, or is under way, was begun with a valid token |
| RuntimeState.StaysInactive | src/runtime_state.py:188-303 | with none begun or under way a value other than ACTIVE never becomes ACTIVE |
| RuntimeState.ForcedWriteLeavesHalted | src/runtime_state.py:252-303 | a forced write replaces HALTED |
| RuntimeState.HowHaltedIsLeft | src/runtime_state.py:66-72 | HALTED is left by exactly a token-checked resume or a forced PAUSED or CLOSE_ONLY |
| BrokerHealth.BrokerHealthMonitor.HandleResult | src/execution/broker_health.py:193-218 | one result's effect on counter and mode, the recorded mode following every change of mode and nothing else, and CLOSE_ONLY forced exactly on the failover |
| BrokerHealth.ModeIsHistory | src/execution/broker_health.py:176-218 | the mode is FAILOVER exactly when a full run of failures has completed since the last successful return, and PRIMARY means fewer failures than that |
| BrokerHealth.RecordIsRightIff | src/execution/broker_health.py:103-105 | the recorded mode is the monitor's if and only if it has failed over at some time or the mode left by an earlier process was right |
| BrokerHealth.FailedOverSnoc | src/execution/broker_health.py:206-218 | how one more result changes whether the history has failed over |
| BrokerHealth.RecoveryNeverResumes | src/execution/broker_health.py:305-336 | composed with the trading state, no health results make a value other than ACTIVE become ACTIVE |
| BrokerHealth.FailoverCloses | src/execution/broker_health.py:214-262 | composed with the trading state, exactly a result that completes a failover begins a forced write, and that ends in CLOSE_ONLY if and only if the secret is ready and no write comes between its watch and commit |
| Cpcv.GroupsPartition | backtesting/cpcv.py:94-94 | the near-equal groups partition the indices |
| Cpcv.CombinationsAreChoices | backtesting/cpcv.py:97-97 | the enumeration holds every choice of test groups and nothing else |
| Cpcv.CombinationCount | backtesting/cpcv.py:138-141 | there are binomially many choices |
| Cpcv.ChoicesAreEven | backtesting/cpcv.py:97-98 | each group is in equally many choices, as many as there are of one fewer from the others |
| Cpcv.SplitsDoNotLeak | backtesting/cpcv.py:97-131 | every fold yielded trains on exactly the indices that are not tested, not embargoed and not overlapping by label, and on at least one |
| Cpcv.CoverageIsEven | backtesting/cpcv.py:97-131 | without embargo or purge each index is tested in exactly C(N-1, k-1) folds |
| Cpcv.EveryFoldYieldedIff | backtesting/cpcv.py:97-131 | with two or more test groups, and labels that depend on the data, all C(N, k) folds are yielded if and only if there is no embargo, no purge, and more samples than test groups |
| Cpcv.PlainCompleteIff | backtesting/cpcv.py:120-123 | without embargo or purge all folds are yielded if and only if there are more samples than test groups |
| Cpcv.OneTestGroupIff | backtesting/cpcv.py:97-131 | with one test group, under any settings, all folds are yielded if and only if each group leaves some sample outside it, its embargo and its labels |
| Cpcv.OneEmbargoedGroupIff | backtesting/cpcv.py:102-109 | with one test group and an embargo alone, if and only if every group has members and more samples before it or after it than the embargo takes |
| Cpcv.CompleteIff | backtesting/cpcv.py:138-141 | the number of folds is the one announced exactly when every choice of test groups yields one, and then nothing raises |
| Cpcv.EmbargoedSplitFallsShort | backtesting/cpcv.py:102-109 | with an embargo and two or more test groups fewer than `n_folds` folds are yielded, on any data and labels |
| Cpcv.SpanningChoiceIsSkipped | backtesting/cpcv.py:102-123 | a choice that tests the first and the last index yields nothing under any embargo, or under a purge with labels that depend on the data |
| Cpcv.Split | backtesting/cpcv.py:79-131 | the generator yields the folds of all choices in order, or raises |
| Cpcv.NextFold | backtesting/cpcv.py:98-131 | the fold of one choice, skipped when nothing is left to train on |
| CpcvFolds.SplitIsExact | backtesting/cpcv.py:97-131 | folds carry the numbers of their choices in lexicographic order, test exactly the indices of their groups, ascending, and, unless the split raises, are there for exactly the choices that leave an index to train on |
| CpcvFolds.CombinationsInOrder | backtesting/cpcv.py:97-97 | the choices are enumerated in lexicographic order |
| CpcvFolds.SplitRaisesIff | backtesting/cpcv.py:97-104 | a split raises if and only if it tests no group, or needs the extremes of a test set while samples and test groups together do not exceed the groups |
| RateLimiter.WindowBound | src/execution/rate_limiter.py:76-118 | after any interleaving, the tokens taken in any window are at most the capacity plus what the window earns |
| RateLimiter.AtMostTwicePerWindow | src/execution/rate_limiter.py:76-118 | so no stretch of one window grants more than twice the requests meant for it |
| RateLimiter.TwicePerWindow | src/execution/rate_limiter.py:76-118 | and that many can be granted |
| RateLimiter.FullAfterWindow | src/execution/rate_limiter.py:142-151 | an empty bucket fills evenly over one window, and one left alone for a window is full |
| RateLimiter.RunKeepsFilled | src/execution/rate_limiter.py:142-151 | the bucket never holds less than nothing or more than its capacity |
| RateLimiter.RefillTwice | src/execution/rate_limiter.py:142-151 | refilling in between makes no difference to a later refill |
| RateLimiter.AlikeTakesSame | src/execution/rate_limiter.py:123-136 | buckets that agree at some time grant the same from then on |
| RateLimiter.ObserversDoNotMatter | src/execution/rate_limiter.py:123-136 | calls of `available()` and `stats()` change neither what is granted nor later token counts |
| RateLimiter.OversizedNeverGranted | src/execution/rate_limiter.py:93-110 | a request above the capacity is never granted |
| RateLimiter.WaitSuffices | src/execution/rate_limiter.py:95-97 | after the computed wait, with nobody else about, the tokens are there |
| RateLimiter.WaitIsNeeded | src/execution/rate_limiter.py:95-97 | before the computed wait they are not, unless it was for the least wait only |
| RateLimiter.AloneWaitSuffices | src/execution/rate_limiter.py:95-108 | so too when others only look |
| RateLimiter.AlpacaRateLimiter.DoRefill | src/execution/rate_limiter.py:142-151 | a refill keeps the bucket within bounds |
| RateLimiter.AlpacaRateLimiter.Available | src/execution/rate_limiter.py:123-126 | observing refills and reports the tokens |
| RateLimiter.AlpacaRateLimiter.Acquire | src/execution/rate_limiter.py:76-111 | among any others that take and look meanwhile: the bucket and the total acquired are those of a story in time order, made of the caller's tries and the others' events; the tokens are taken at the last try or not at all; if others only look, a request within capacity sleeps at most once; an oversized one is never granted |
| RateLimiter.AlpacaRateLimiter.Sleep | src/execution/rate_limiter.py:95-108 | a sleep lasts the computed wait at least, and ends with a refill of what others left |
| Sizing.SizeIsLargestAffordable | src/portfolio/risk.py:66-128 | the formula returns the largest number of shares within the position cap, the risk per trade and the remaining global budget |
| Sizing.PipelineAgreesIff | src/portfolio/position_sizing_pipeline.py:212-275 | under given settings, and without market data, the default pipeline gives the flat formula's count for every account, budget and price if and only if the two weigh the budget with the same stop and come to the same part of the account's value, or both to nothing |
| Sizing.PipelineRefinesFlatIff | src/portfolio/position_sizing_pipeline.py:212-275 | under a given stop floor, it does so whatever the other settings are if and only if the two stops coincide |
| Sizing.DefaultSettingsAgreeIff | src/config.py:49-54 | under the repository's own settings they agree on exactly the signals that bring a stop |
| Sizing.NearlySpentBudget | src/config.py:49-54 | under those settings, with most of the budget spent and no stop, the pipeline buys 30 shares and overruns the budget where the formula buys 16 |
| Sizing.AgreesWithFlat | src/portfolio/position_sizing_pipeline.py:92-194 | the agreement, account by account |
| Sizing.Disagreement | src/portfolio/position_sizing_pipeline.py:97-99 | under all other stops and settings, an account and a price at which the two differ |
| Sizing.PlainPipeline | src/portfolio/position_sizing_pipeline.py:236-275 | the pipeline in closed form when it has no market data |
| Sizing.PipelineKeepsLimits | src/portfolio/position_sizing_pipeline.py:139-194 | with any market data its purchases keep within the hard cap, the liquidity limit and the remaining risk budget as the budget step weighs it |
| Sizing.PipelineIsLargest | src/portfolio/position_sizing_pipeline.py:92-275 | with any market data the pipeline buys the largest number of shares within the volatility-scaled base size, the hard cap, the liquidity limit and the remaining budget, where the scale brings volatility to its target but stays between a half and two |
| Sizing.KeepsBudgetIff | src/portfolio/position_sizing_pipeline.py:155-179 | at the stop they are sized with, all purchases keep within the remaining budget if and only if that stop is no greater than the one the budget step uses, or the settings leave nothing to invest |
| Sizing.PipelineRiskPerTrade | src/portfolio/position_sizing_pipeline.py:92-131 | at that stop a purchase risks at most twice the risk per trade, and at most that risk when volatility is not below its target |
| Sizing.Size | src/portfolio/position_sizing_pipeline.py:236-275 | the loop over the steps, its early rejection and its division by zero |
| Portfolio.PortfolioManager.LoadState | src/portfolio/manager.py:95-120 | a fresh manager takes over exactly what the store holds |
| Portfolio.PortfolioManager.GetOpenRisk | src/portfolio/manager.py:134-142 | total risk over equity, and zero without equity |
| Portfolio.PortfolioManager.CanOpenPosition | src/portfolio/manager.py:161-183 | exactly the unheld symbols with a free slot and day trades to spare are admitted |
| Portfolio.PortfolioManager.SizeSignal | src/portfolio/manager.py:185-197 | a signal is sized against the open risk of the moment |
| Portfolio.PortfolioManager.RecordFill | src/portfolio/manager.py:203-241 | purchases open or average, sales close, a zero total raises and changes nothing, and the store mirrors memory |
| Portfolio.PortfolioManager.ImportPosition | src/portfolio/manager.py:300-324 | a broker position enters memory and store alike |
| Portfolio.PortfolioManager.RemovePosition | src/portfolio/manager.py:326-330 | a position leaves memory and store alike |
| Portfolio.PortfolioManager.UpdatePositionQty | src/portfolio/manager.py:332-337 | only a held position's quantity changes, in memory and store alike |
| Portfolio.PortfolioManager.UpdateEquity | src/portfolio/manager.py:254-258 | equity changes in memory and store alike |
| Portfolio.BasisIsConserved | src/portfolio/manager.py:214-222 | averaging adds the purchase's cost to the basis and its quantity to the position |
| Portfolio.FillEffects | src/portfolio/manager.py:214-241 | a sale closes its symbol's whole position; a purchase opens a position with the fill's terms, or adds its quantity and cost to the held one and keeps its other terms; no other position changes |
| Portfolio.OnePositionRisk | src/portfolio/manager.py:136-142 | a position risks its cost times its stop distance, and open risk is that over equity |
| Portfolio.TotalRiskSplits | src/portfolio/manager.py:138-142 | the total risk can be summed in any order |
| RiskBudget.RunStaysWithinBudget | src/portfolio/manager.py:161-241 | no run of admitted purchases and sales takes open risk over the global budget or the positions over their number |
| RiskBudget.SizedPurchaseFits | src/portfolio/risk.py:86-109 | a purchase filled within its size, price and stop adds at most the remaining budget |
| Reconciliation.ReconciliationService.Run | src/execution/reconcile.py:58-116 | after a pass the symbols and whole quantities are the broker's and all else is as held, the summary counts exactly the differences, and a failed fetch changes nothing |
| Reconciliation.ReconciliationService.ImportMissing | src/execution/reconcile.py:79-93 | the broker's positions not held are imported and counted |
| Reconciliation.ReconciliationService.CloseAbsent | src/execution/reconcile.py:96-103 | held positions that the broker does not have are removed and counted |
| Reconciliation.ReconciliationService.UpdateDiffering | src/execution/reconcile.py:106-116 | differing quantities are corrected and counted |
| Reconciliation.SecondPassIsQuiet | src/execution/reconcile.py:66-116 | a second pass against the same broker finds nothing and changes nothing |
| Reconciliation.QuietIffInLine | src/execution/reconcile.py:66-116 | a pass is quiet exactly when the positions already were the broker's |
| Reconciliation.LastListedCounts | src/execution/reconcile.py:73-73 | of several broker entries for a symbol the last counts |
| Reconciliation.ExactlyTheListed | src/execution/reconcile.py:73-73 | the broker's symbols are exactly those listed |
| Reconciliation.WholeQtyIsTowardsZero | src/execution/reconcile.py:106-106 | the broker's quantity loses its fraction, towards zero for either sign |
| Incidents.IncidentController.ReportIncident | src/risk/incident_controller.py:128-165 | after a report the cached severity, throttle and pruned times agree with recomputing them from the whole history |
| Incidents.IncidentController.OpenIncident | src/risk/incident_controller.py:145-165 | the incident is filed, escalated and ratcheted, from any severity cached before |
| Incidents.IncidentController.ResolveIncident | src/risk/incident_controller.py:167-186 | so they do after a resolution, of a known incident or not |
| Incidents.IncidentController.HandleCritical | src/risk/incident_controller.py:272-300 | three criticals in the window open an emergency and clear the times |
| Incidents.IncidentController.RecalculateActiveSeverity | src/risk/incident_controller.py:378-393 | the severity is the highest among open incidents and the multiplier 1, 0.5 or 0 accordingly |
| Incidents.IncidentController.IsPaused | src/risk/incident_controller.py:206-208 | opens are blocked exactly while a critical or an emergency is open |
| Incidents.HighestIsUnique | src/risk/incident_controller.py:370-393 | the recomputed severity is determined by the incidents |
| Incidents.HigherAfterOpening | src/risk/incident_controller.py:370-376 | ratcheting up on a report gives what recomputing would |
| Incidents.PruningLosesNothing | src/risk/incident_controller.py:275-277 | what an earlier pruning dropped is outside every later window |
| Incidents.EscalationIsAtTheThird | src/risk/incident_controller.py:272-300 | the controller escalates exactly when the second critical before this one, since the last escalation, is still in the window |
| Incidents.StartsAfresh | src/risk/incident_controller.py:285-300 | after an escalation the next two criticals do not escalate, however close together |
| Incidents.EventEffects | src/risk/incident_controller.py:128-186 | a report opens its own incident at its severity, and at most an emergency beside it; a resolution closes its own; no other incident changes |
| Incidents.ThrottleMeans | src/risk/incident_controller.py:378-393 | the throttle is off exactly with nothing open, at zero exactly with a critical or an emergency open, and a half in between |
| Incidents.StaysOpen | src/risk/incident_controller.py:167-186 | an incident stays open until it is resolved itself |
| Incidents.EscalationOutlivesItsCauses | src/risk/incident_controller.py:285-300 | after an escalation the throttle stays at zero until the escalation itself is resolved |
| Drift.OnePassIsMaxDrawdown | src/monitoring/drift.py:375-385 | for returns no worse than a total loss the loop's result is the maximum over all pairs of days |
| Drift.OnePassIsMaxExactly | src/monitoring/drift.py:375-385 | for any returns, in terms of the equity curve alone: the result is the maximum if and only if equity is never negative, or some negative day has only starting or non-positive equity until then and no fall into negative equity loses a greater part than the one from the start to that day |
| Drift.OnePassIsMaxIff | src/monitoring/drift.py:375-385 | for any returns, the result is the maximum if and only if it bounds every fall into negative equity |
| Drift.NeverOverstated | src/monitoring/drift.py:375-385 | for any returns, the result is the loss over some pair of days |
| Drift.DrawdownIsAFraction | src/monitoring/drift.py:375-385 | it lies between 0 and 1, and below 1 exactly when no return is a total loss |
| Drift.BelowTotalLoss | src/monitoring/drift.py:375-385 | for a return below a total loss the loop can understate the drawdown |
| Drift.MaxDrawdownFromReturns | src/monitoring/drift.py:375-385 | the loop computes it |

## Left out

- Redis, database, broker, message and dashboard plumbing: a key is a value with a version or an expiry, a counter a number, and broker replies are inputs.
- Tokens, signatures and JSON: a token is valid or not, as an input; stored records are stored as they are.
- The digest of a replay: the ledger itself stands for it.
- Rounding of floating-point numbers: all amounts are exact reals.
- Time stamps, latencies, logging, alerts and traces, and the measured waiting times of the rate limiter.
- Order records are objects, as in the source; positions, incidents and backtest positions are values in the map or list that holds them, so the sharing of a position object with a caller that took a copy of the positions is not modelled.
- Leader election, trading state and their callers are step functions over the shared state rather than objects with methods, since every command of a call is a separate step.
- An absent trading-state key and its initialisation, and exceptions in the middle of a broker monitor's Redis writes.
- Interleaving inside one incident report, and the controller's calls into the trading state. It pauses through `pause()` and `emergency_stop()`, which the trading state store does not have; the failure is caught and logged.
- Corrupt position records in the store, which loading skips.
- RateLimiter.AlpacaRateLimiter.Acquire: takes what other callers do as an input, in time order within each sleep, and gives up after a number of sleeps that is an input too, where the source would wait on.
- Incidents.IncidentController.ReportIncident: asks for new incident ids and a clock that does not run backwards, which random ids and a monotonic clock give.
- Drift.OnePassIsMaxDrawdown: is about returns of at least -1, where equity stays non-negative; `OnePassIsMaxExactly` is about all.
- RiskBudget.RunStaysWithinBudget: takes equity as constant and each fill within the size, price and stop it was sized with; the manager itself enforces neither.
- Replay.LedgerFromEvents: is about an order registered once, before its transitions, with distinct numbers per order, and not known to the machine before; `OrdersAreIndependent` and `ArrangementIrrelevant` are about all.
- BacktestRules.ExitIsExact: is about the source's simulator and a cost model without negative parts; `ExitsDealWithAll` and `DaysAreSound` are about any that conserves shares.
- Cpcv.Split: takes label spans with at least one row per sample; with fewer the source raises when it trains on a sample without one.
- Cpcv.EveryFoldYieldedIff: takes labels that each depend on some index of the data; a label wholly outside it escapes every purge, and then `CompleteIff` decides.
- TradePnl.LotsRefineShares: is about quantities of at least zero with a common unit; `MatchInUnits`, `MatchLots` and `ComputeTradePnl` take any.
- Building the date index and look-back slices, several rows stamped midnight of one date, missing columns and values, market regimes, trade percentages, and performance figures such as the Sharpe ratio and growth rates.
- The per-strategy drawdown tracker, order-status reconciliation, day-trade counting, round-trip cost estimates, pending counts and plain look-ups: each is settled by reading one body.
- Strategies, indicators, pre-trade gates, stress tests and configuration.
