# A verified model of Botik's stateful cores

Botik is a trading bot. Between its exchange connections and its user interface sit several
cores that keep state with exact arithmetic over long runs. This project models those cores in
Dafny and proves what they keep. Functions and lemmas carry the specifications and their theorems;
classes and loops follow the code step by step and are proved to compute those specifications.

| area | modules | what is proved |
|---|---|---|
| reconciliation and entry locks | `FuturesStore`, `Reconciliation`, `ReconciliationFixpoint`, `ReconciliationTable`, `ReconciliationFaults`, `ReconciliationService` | which locks stand after a run, what a run may release, where repeated runs settle |
| positions and profit | `PositionLedger`, `SignalOutcome`, `ExecutionSync` | the ledger identity of the average-cost position, agreement of the two profit computations, every execution counted once and held at its average cost |
| futures protection | `Protection` | "protected" rests on an exchange position, a bad status shuts the entry gate |
| order admission | `RiskManager`, `LotNormalizer`, `RequestRetry` | the rate limit, the exposure books, the closed form of lot rounding, bounded retries |
| numeric and stream cores | `Bandit`, `Backtest`, `BacktestReport`, `Backfill`, `OrderBook`, `SpotPaper` | Welford's statistics, causality, sizing and accounting of a backtest, coverage of a download, book replay, conservation in the paper ledger |

`Options`, `RealArith` and `MapSum` hold small shared definitions.

## What turned out to hold only under a condition

Where a natural expectation fails for some inputs, the model keeps the code's behaviour and states
exactly when the expectation is met.

- Order locks do not always clear by themselves. They are all gone after two or more complete
  reconciliation runs if and only if every exchange order carries a link id or an exchange id: an
  order with neither is stored under a fresh local id and reported again by every run
  (`OrderLocksClearIff`). Missing-position locks never clear while the exchange does not list the
  position, because the local row is never closed (`Convergence`).
- A failed reconciliation run can release locks: each release is committed at once, and the writes
  that follow it are part of the same attempt. What it releases had lost its cause all the same; it
  releases nothing if and only if it failed before the release or the release raised before its
  first such lock (`ReleaseNeedsAbsence`, `FailedRunReleasesNothingIff`, `FailedRunCanRelease`).
- A raise between two commits of one order or position can leave a row marked `MissingOnExchange`, or
  a position imported, whose lock is then never raised: the next run takes the row as settled
  (`SilentMark`, `SilentImport`). Nothing is released on the way (`CutOffIsSafe`), and later answered
  runs settle all locks as usual (`ConvergenceAfterCut`).
- The locks settle, but the order table need not: every run adds a row for each listed order without a
  link, and the table comes to rest if and only if there are none (`TableAtRestIff`).
- The futures reconciler releases only futures locks, but the entry gate ignores the domain, so an
  open lock of another domain keeps the symbol shut (`OtherDomainsUntouched`, `ConvergedGate`).
- The volume-weighted gross of a signal is its cash flow if and only if as much was sold as bought
  (`GrossIsCashFlowIff`); when the tracked position is flat, that is if and only if no quantity
  was lost to base-coin fees (`BaseFeesBreakAgreementIff`). The formula recorded when a single
  fill flattens the position agrees with it if and only if nothing had been realised before
  (`FlatFormulaAgreesIff`).
- The record made when a position is found flat books the whole old quantity, also when a remainder
  below the floor is written off; it is what the fill realised if and only if nothing was left open
  or the price is the average (`RecordedGrossIff`, with an instance in `HalfCloseRecordsDouble`).
- The refresh loop remembers an id before it reads numbers and writes to the database, so an item on
  which that raises is not counted in that session (a restart may replay it); all executions are
  accounted for if and only if those lost come to nothing (`ExactlyOnce`, `NothingMissingIff`,
  `LossErases`).
- Exit orders register with the limiter without a check. Entries never exceed the maximum of any
  closed minute, but all orders together stay within it if and only if every exit found room
  (`WithinLimitIff`, `SessionKeepsRateLimit`, with an instance in `TwoExitsOverflow`).
- The spot backtest does not check that it can pay for an entry; the paper engine follows it
  throughout if and only if it always could (`FollowsThroughoutIff`), which a largest share of at
  most 1/2.002 guarantees (`SmallShareIsAffordable`) and a share of 2 does not
  (`UnaffordableEntryOccurs`).
- The exposure caps bound what is booked, price times quantity. The leveraged exposure, which the
  check applies to the new order only, stays within the cap if and only if the leverage on the
  older orders fits in the room left (`LeveragedWithinCapIff`, `LeverageEscapesCap`).
- A protection attempt whose first database call raises leaves the old row, possibly "protected",
  and the gate with it, while the throttle has started (`GateAfterFailureIff`,
  `AbandonedAttemptWaits`).
- A second delivery of an execution is harmless if and only if the id set has room for it; past
  20000 ids the set is emptied (`SecondPollHarmlessIff`).
- The protection check falls back to any open position of the symbol when its own is not listed, so
  a guarded short can vouch for an unguarded long (`EvidenceIsOwnPositionIff`,
  `OtherSideCanVouch`). The gates read only the latest row of a symbol
  (`GateReadsOnlyTheLatestRow`).
- The guard against inflating an order to more than three times the request needs a price; the
  emergency market close is sent with price 0 and has no such bound, while a forced market exit
  passes the book price and has it (`NoGuardWithoutPrice`).
- The retry after a skewed clock is made with the default for the transport flag, which allows a
  transport retry again; a GET can so be sent four times, for exactly one behaviour of the server
  (`FourSendsIff`).
- The backtest's imbalance is a constant above one half for both engines, so no run ever goes
  short (`NeverShort`).
- Order-book snapshots store the zero sizes they carry, which deltas would delete. At a price, the
  book is the last-write-wins replay if and only if no zero is kept there: the latest snapshot's
  last entry for it is zero and no later delta wrote it (`ReplayIsLastWriteIff`).

## Model

| member | source | states |
|---|---|---|
| Reconciliation.RunOpen | src/botik/execution/reconciliation_service.py:215-272 | the open issues after a run are the old ones and those raised, less, once every step has got through, the stale locks the release resolved before anything raised; it succeeds exactly when every step, the release and the closing writes did |
| Reconciliation.LockExactness | src/botik/execution/reconciliation_service.py:140-213 | after a successful run the open locks of each checked kind are exactly those, with a symbol, raised in that run |
| Reconciliation.NoFalseRelease | src/botik/execution/reconciliation_service.py:140-272 | a run that fails before its release releases nothing; no run, successful or failed, releases anything of a kind whose query was not answered, of another domain, or that is no lock |
| Reconciliation.ReleaseNeedsAbsence | src/botik/execution/reconciliation_service.py:140-272 | in any run, successful or failed, an issue that disappears was of a checked kind, every gathering step had completed, and the run did not raise it again |
| Reconciliation.FailedRunReleasesNothingIff | src/botik/execution/reconciliation_service.py:244-272 | a failed run releases nothing if and only if it failed before the release, or the release raised before resolving a stale lock open at the start |
| Reconciliation.FailedRunCanRelease | src/botik/execution/reconciliation_service.py:177-202 | with one open order lock and both lists answered and empty, a raise right after the release leaves the run failed and the lock gone |
| FuturesStore.SyncEffect | src/botik/storage/futures_store.py:202-277 | upserting an exchange list touches exactly the keys of its usable elements; each of their rows shows the size, levels and status of the last element listed for it, an absent level being none and "protected" meaning both are there |
| FuturesStore.SyncNonZero | src/botik/storage/futures_store.py:280-325 | the open positions after a synchronisation are the old ones together with the exchange's |
| ReconciliationFixpoint.SyncRecords | src/botik/storage/futures_store.py:328-386 | after an order pass every exchange order with a link or an id has a row by which it can be recognised |
| ReconciliationFixpoint.RowsKeepIdentity | src/botik/storage/futures_store.py:328-386 | no order pass changes the symbol of a row or forgets its exchange id |
| ReconciliationTable.NewLinkRow | src/botik/storage/futures_store.py:328-386 | a listed link that had no row gets one with the symbol of the first order listed with it, its last id and its last status |
| ReconciliationTable.UnlinkedRow | src/botik/storage/futures_store.py:328-386 | a listed order without a link gets a row of its own under a new local link, with its symbol, id and status |
| ReconciliationFixpoint.StepSettles | src/botik/execution/reconciliation_service.py:404-534 | one complete order pass leaves all recognisable orders recorded and no working row unseen |
| ReconciliationFixpoint.SettledStep | src/botik/execution/reconciliation_service.py:404-534 | a pass over a settled table raises exactly the locks of the orders that have neither link nor id |
| ReconciliationFixpoint.OrphanLockIff | src/botik/execution/reconciliation_service.py:421-462 | an answered run leaves a symbol with an orphaned-order lock if and only if one of its listed orders is known neither from the tables nor from the orders listed before it, by link, by a present (not overwritten) exchange id or by the older order table |
| ReconciliationFixpoint.UnknownOrderIsLocked | src/botik/execution/reconciliation_service.py:421-462 | so an exchange order that shares no link and no id with any table or earlier order locks its symbol |
| ReconciliationFixpoint.KnownOrdersAreNotLocked | src/botik/execution/reconciliation_service.py:421-462 | so a symbol all of whose exchange orders are known by link gets no orphan lock (known ids and older rows: see OrphanLockIff) |
| ReconciliationFixpoint.LostOrderIsLocked | src/botik/execution/reconciliation_service.py:505-534 | a working local order the exchange does not list is marked, otherwise unchanged, and its symbol locked by the same run |
| ReconciliationFixpoint.LostLockIff | src/botik/execution/reconciliation_service.py:505-534 | an answered run leaves a symbol with a missing-order lock if and only if a working row of it was not listed or one of its listed working orders has neither link nor id |
| ReconciliationTable.GoneOrderLocks | src/botik/execution/reconciliation_service.py:404-534 | whatever else is listed or stored, a new or partially filled order that brings a link or an id of its own, and whose link and id the next answered run does not list, leaves its own symbol locked |
| ReconciliationTable.GoneOrderIff | src/botik/execution/reconciliation_service.py:404-534 | an order on a symbol of its own, first listed in one answered run, leaves that symbol with a missing-order lock after the next answered run if and only if it was new or partially filled, had a link or an id, and is listed then by neither |
| ReconciliationFixpoint.PositionLocks | src/botik/execution/reconciliation_service.py:607-765 | the position locks after an answered run are exactly the symbols with a key on one side only, in the direction of each lock kind |
| ReconciliationFixpoint.SettledAfter | src/botik/execution/reconciliation_service.py:404-765 | after any number of answered runs the order table is settled and the open positions are the first ones with the exchange's |
| ReconciliationFixpoint.Convergence | src/botik/execution/reconciliation_service.py:404-765 | two or more answered runs against one exchange state leave each lock in a state that does not depend on their number: no orphaned-position lock, missing-position locks exactly for the symbols of unlisted positions, order locks exactly for bare orders |
| ReconciliationFixpoint.LinksStayFresh | src/botik/storage/futures_store.py:328-386 | locally made link ids stay new through any runs, failed and cut short ones included |
| ReconciliationFixpoint.ConvergenceAfterFailures | src/botik/execution/reconciliation_service.py:215-272 | after any runs at all, failed, refused or cut short by an unreadable list, two or more answered ones settle each lock as above |
| ReconciliationFixpoint.OrderLocksClearIff | src/botik/execution/reconciliation_service.py:404-534 | all order locks clear if and only if every exchange order carries a link or an id |
| ReconciliationFixpoint.FurtherRunKeepsLocks | src/botik/execution/reconciliation_service.py:215-272 | once converged, another run changes no lock |
| ReconciliationTable.RunGrowsOrders | src/botik/storage/futures_store.py:328-386 | a completed run adds exactly one order row for every listed link without one and one for every listed order without a link |
| ReconciliationTable.TableAtRestIff | src/botik/execution/reconciliation_service.py:404-534 | after one answered run, another grows the order table by the listed orders without a link, and leaves it as it is if and only if there are none |
| ReconciliationFaults.CutOffIsSafe | src/botik/execution/reconciliation_service.py:404-765 | a run cut off between two commits has released nothing and raised no issue the whole run would not have raised |
| ReconciliationFaults.CutOffKeepsLinksFresh | src/botik/execution/reconciliation_service.py:404-765 | locally made link ids stay new through a cut |
| ReconciliationFaults.ConvergenceAfterCut | src/botik/execution/reconciliation_service.py:404-765 | two or more answered runs after a cut settle every lock as after any other failure |
| ReconciliationFaults.SilentMark | src/botik/execution/reconciliation_service.py:512-525 | a cut after a row is marked and before its issue hides the loss: the next run locks the symbol exactly if another of its orders, not yet marked, is lost or bare |
| ReconciliationFaults.SilentImport | src/botik/execution/reconciliation_service.py:649-715 | a cut after a position is imported and before its issue hides the orphan: the next run locks the symbol exactly if another of its positions is neither local nor imported |
| ReconciliationFixpoint.OtherDomainsUntouched | src/botik/execution/reconciliation_service.py:140-213 | locks of another domain are neither raised nor released by any sequence of futures runs |
| ReconciliationFixpoint.ConvergedGate | src/botik/main.py:144-187 | once converged, entry on a symbol is refused exactly for an unlisted position, a bare exchange order, or an old lock of another domain |
| ReconciliationService.Service.IssueOnce | src/botik/execution/reconciliation_service.py:95-138 | the key is open afterwards, no row is lost or rewritten, no second open row appears, and an open row is reused |
| ReconciliationService.Service.ImportOrder | src/botik/execution/reconciliation_service.py:421-487 | one exchange order: its row, and an issue exactly when nothing local carries its link or id |
| ReconciliationService.Service.ImportOrders | src/botik/execution/reconciliation_service.py:404-487 | the pass over the exchange list up to its first unreadable element, with the links and ids seen |
| ReconciliationService.Service.MarkLostOrders | src/botik/execution/reconciliation_service.py:505-534 | exactly the unseen working rows are marked and reported |
| ReconciliationService.Service.ReconcileOpenOrders | src/botik/execution/reconciliation_service.py:404-534 | the order step equals the model's, partial effects of a failing one included |
| ReconciliationService.Service.ImportPositions | src/botik/execution/reconciliation_service.py:607-743 | the position rows, the keys seen and the issues raised, up to the first unreadable element |
| ReconciliationService.Service.RaiseMissingPositions | src/botik/execution/reconciliation_service.py:745-765 | one issue for each local open position the exchange did not list |
| ReconciliationService.Service.ReconcilePositions | src/botik/execution/reconciliation_service.py:607-765 | the position step equals the model's |
| ReconciliationService.Service.ResolveStale | src/botik/execution/reconciliation_service.py:140-213 | exactly the open rows of checked kinds not raised in this run are resolved, or, when a write raises after some of them, those and no others, at most as many as had been committed; the count and the symbols reported unlocked are theirs |
| ReconciliationService.Service.RunOnce | src/botik/execution/reconciliation_service.py:215-272 | a run of the class, also one whose release or closing writes raise, is a run of the model; at most one open row per type, domain and symbol is preserved, and rows only go from open to resolved |
| ReconciliationService.Service.LoadSymbolLocks | src/botik/main.py:152-187 | a symbol has an entry exactly when it has an open lock issue, and the entry lists exactly the kinds open on it |
| PositionLedger.StepIdentity | src/botik/risk/position.py:7-45 | a fill moves the quantity by its signed size, and the position's value at cost by what the fill cost and what it realised |
| PositionLedger.LedgerIdentity | src/botik/risk/position.py:7-45 | from flat, over any fills, quantity is the net of the valid fills and net cash plus the position at cost is the realised profit, through partial closes and flips |
| PositionLedger.AverageWithinLeg | src/botik/risk/position.py:28-45 | the average is zero exactly when flat and otherwise lies between the lowest and the highest price that opened or added to the current leg |
| PositionLedger.FlatRealisesCash | src/botik/risk/position.py:28-45 | a sequence that ends flat realises its whole cash flow |
| SignalOutcome.Accumulate | src/botik/main.py:1746-1778 | the loop's four totals are the quantity and notional of each side |
| SignalOutcome.SyncSignalOutcome | src/botik/main.py:1721-1804 | the round-trip outcome of a signal's executions, or none |
| SignalOutcome.OutcomeIff | src/botik/main.py:1780-1798 | an outcome exists exactly when something was bought and something sold |
| SignalOutcome.GrossIsCashFlowIff | src/botik/main.py:1780-1804 | the volume-weighted gross is the cash flow if and only if bought and sold quantities are equal |
| SignalOutcome.TwoComputationsAgree | src/botik/main.py:1746-1804 | on a flat round trip the volume-weighted gross, the cash flow and the average-cost realised profit are one number |
| SignalOutcome.RecordedGrossIff | src/botik/main.py:2082-2105 | the gross recorded when the loop finds a position flat books the whole old quantity: it exceeds what the fill realises by the gain on the part left open, and is exact if and only if nothing was left or the price is the average |
| SignalOutcome.RecordIsRealisedIff | src/botik/main.py:2082-2105 | over a whole signal the record is everything realised if and only if the profit before it is the gain on the part left open |
| SignalOutcome.FlatFormulaAgreesIff | src/botik/main.py:2090-2105 | after any entries closed exactly by one fill, the recorded gross is the signal's volume-weighted result if and only if the entries had realised nothing |
| SignalOutcome.OneCloseAgreesIff | src/botik/main.py:1746-2105 | after entries on one side, one opposite fill of any size, short of the position, exact or through it, has a volume-weighted gross equal to what it realises, and the record agrees if and only if nothing was left open or the price is the average |
| SignalOutcome.OneSidedRealisesNothing | src/botik/risk/position.py:28-45 | fills on one side realise nothing and never cross zero |
| SignalOutcome.LostIsFees | src/botik/main.py:1996-2006 | the quantity lost between executed and effective fills is the base-coin fees |
| SignalOutcome.BaseFeesBreakAgreementIff | src/botik/main.py:1996-2006 | with a flat effective position, the gross is the cash flow if and only if the base-coin fees come to nothing: of a purchase no more than was bought, of a sale no less than zero |
| ExecutionSync.PollTotal | src/botik/main.py:1970-2041 | a new id adds its effective quantity to tracked plus written-off; a known id adds nothing |
| ExecutionSync.StepTotal | src/botik/main.py:1970-2041 | the same for every event: replay, recovery, reset, and items on which the loop raises before or after the book is updated |
| ExecutionSync.ExactlyOnce | src/botik/main.py:1970-2041 | up to 20000 ids, whatever pages repeat, whatever is reset and wherever the loop raises, tracked plus written-off quantity is the signed effective quantity over the distinct ids less that of the executions lost on first arrival |
| ExecutionSync.HeldIsReplay | src/botik/main.py:1970-2197 | over the same histories the held position of a symbol, average included, is the position its counted fills make since its last reset |
| ExecutionSync.TrackedLedger | src/botik/main.py:1970-2197 | so the tracked position obeys the ledger identity with those fills, its average is zero exactly when flat and otherwise lies within the prices of its leg |
| ExecutionSync.ContributionIs | src/botik/main.py:1990-2006 | an execution counts exactly with a size, a side and something left after its fee; a purchase then adds what the fee leaves, a sale takes its size and its fee, and neither moves anything without a price |
| ExecutionSync.NothingMissingIff | src/botik/main.py:1976-2041 | every distinct execution is accounted for if and only if the lost ones come to nothing |
| ExecutionSync.LossErases | src/botik/main.py:1976-2041 | if an execution is lost when it first turns up, books, write-offs and total are those of a history in which it never existed, whatever later pages of the session bring |
| ExecutionSync.NetIsSumOver | src/botik/main.py:1970-2041 | that quantity is a sum over the set of executions, so arrival order is irrelevant |
| ExecutionSync.SameExecutionsSameTotal | src/botik/main.py:1970-2041 | two histories delivering the same executions account for the same quantity, their losses put back |
| ExecutionSync.PollLeavesNoDust | src/botik/main.py:2043-2197 | after a counted execution the symbol is flat or holds an effective position; what is written off is exactly the ineffective rest; other symbols are untouched |
| ExecutionSync.KeptIff | src/botik/main.py:2043-2197 | the loop keeps a position if and only if it has the size, on spot with a notional floor the value, and on futures no emergency close |
| ExecutionSync.LinearWriteOffBelowFloor | src/botik/main.py:2043-2197 | on futures, a write-off made by the refresh loop is below the size floor |
| ExecutionSync.HalfCloseRecordsDouble | src/botik/main.py:2043-2105 | selling half of 1 @ 100 at 110 under a floor of 0.6 takes the recording branch, writes the other half off and records 10 against 5 realised |
| ExecutionSync.SecondPollHarmlessIff | src/botik/main.py:1976-1980 | delivering an execution twice is harmless if and only if the id set has room |
| ExecutionSync.Runtime.RefreshItem | src/botik/main.py:1970-2197 | one item through the loop body is one event of the model, also when it raises between remembering the id, updating the book and resetting |
| ExecutionSync.Runtime.RefreshPage | src/botik/main.py:1969-2197 | a page is its items as events, oldest first, up to the first on which the loop raises |
| ExecutionSync.RaisesIff | src/botik/main.py:1976-2041 | an item raises only on a new id: before its book, or, if it counts, before its reset; what is left of it then is a lost or an unsettled event |
| ExecutionSync.CleanPage | src/botik/main.py:1969-2197 | a page on which nothing raises is polled whole, from its last item to its first |
| ExecutionSync.StartupOrder | src/botik/main.py:3001-3118 | the replay takes the local rows in order, recovery the exchange's list from its end |
| ExecutionSync.Runtime.RecoverOnStartup | src/botik/main.py:3001-3118 | startup is the replay of the local rows followed by the unseen ones of the exchange's page |
| ExecutionSync.Runtime.ResetRuntimeState | src/botik/main.py:1680-1691 | a reset flattens the symbol and moves its quantity to the written-off total |
| Protection.PlanIsSound | src/botik/risk/futures_protection.py:32-65 | a plan exists exactly when its inputs are positive and the lower price stays above zero; then the stop is exactly the stop percentage of the entry away on the losing side, and the target the target percentage on the winning side |
| Protection.TransitionIff | src/botik/risk/futures_rules.py:51-79 | after an attempt the status is protected or closed exactly when the stop was accepted and the exchange showed that, unprotected exactly when it showed so to a first try, and failed otherwise |
| Protection.RiskStateIff | src/botik/risk/futures_rules.py:82-104 | the exact losses, distance to liquidation and statuses of each risk state, healthy being what remains |
| Protection.SkippedIff | src/botik/main.py:1309-1325 | an attempt is skipped, with nothing changed, exactly for a position below the floor or zero, an entry without a price, or within eight seconds of the last try; otherwise the throttle starts |
| Protection.SearchMeaning | src/botik/main.py:575-592 | the walk finds the exact position if there is one, otherwise some open position of the symbol, otherwise nothing |
| Protection.VerifyMeaning | src/botik/main.py:555-616 | "failed" when the list was refused, "closed" exactly when it shows no open position of the symbol, otherwise an open one of the symbol, "protected" exactly when its stop and target are set |
| Protection.CrashedIff | src/botik/main.py:575-592 | the walk raises exactly on an unreadable element that no exact match precedes |
| Protection.EvidenceIsOwnPositionIff | src/botik/main.py:575-592 | the evidence has the side and index asked about if and only if the exchange lists an open position with them |
| Protection.OtherSideCanVouch | src/botik/main.py:590-592 | a long is reported protected by a guarded short of the same symbol |
| Protection.AttemptOutcome | src/botik/main.py:1309-1678 | an attempt past its guards writes its own row and no other: the size, the time, and the stop and target at exactly their percentages of the entry, or none without a plan; the row ends protected, closed, failed or unprotected, the last never on a repair; abandoned after its first row it says repairing on a repair and pending otherwise, abandoned before it changes nothing |
| Protection.OutcomeFollowsExchange | src/botik/main.py:1309-1678 | an attempt ends protected exactly when an accepted stop is followed by evidence with both levels, unprotected exactly when a first try finds it without one, closed exactly when the exchange lists no open position of the symbol; it is abandoned exactly when a database call or the reading of the answer raised; runtime state is reset exactly when the stop was refused three times and the market close accepted |
| Protection.ProtectedIsBacked | src/botik/main.py:1309-1678 | over any interleaving of attempts, reconciliations and flat closes, a row that says "protected" was last written from an open exchange position on its symbol with stop and target set |
| Protection.FlatCloseMeans | src/botik/main.py:2143-2165 | a flat close leaves a closed row without size, levels or evidence under the side that was held, and changes no other |
| Protection.GateIff | src/botik/main.py:190-319 | the entry gates together admit exactly a non-blocking status, away from liquidation, losing at most 3%, with both percentages set |
| Protection.GateAfterFailureIff | src/botik/main.py:190-319 | after an attempt that ends neither protected nor closed, with no row of the symbol as recent, the gate admits if and only if the attempt was abandoned before its first row and the old latest row was admitted |
| Protection.AbandonedAttemptWaits | src/botik/main.py:1318-1325 | an attempt abandoned before its first row has started the throttle: for eight seconds the next ones are skipped |
| Protection.GateReadsOnlyTheLatestRow | src/botik/main.py:190-213 | a blocking row is hidden by a later sound row of the symbol's other side |
| Protection.Runtime.VerifyFromExchange | src/botik/main.py:555-616 | the loop with its early exit is the specified verification |
| Protection.Runtime.ApplyStop | src/botik/main.py:1483-1513 | succeeds exactly when one of the first three replies accepts |
| Protection.Runtime.EnsureProtection | src/botik/main.py:1309-1678 | the whole attempt, with its writes in order and the places where one may raise, is the specified one |
| Protection.Runtime.CloseFlat | src/botik/main.py:2143-2165 | the flat close writes a closed row with no quantity and no evidence |
| RiskManager.PruneIsRecent | src/botik/risk/manager.py:75-79 | popping expired stamps from the front of a sorted deque is filtering it |
| RiskManager.DequeIsRecentHistory | src/botik/risk/manager.py:67-79 | with a monotone clock the deque is at all times the full history filtered to the last minute |
| RiskManager.NoMinuteOverflows | src/botik/risk/manager.py:67-108 | if each checked registration follows an allowing check made after all earlier registrations, no closed minute holds more checked ones than the maximum, whatever unchecked ones come in between |
| RiskManager.WithinLimitIff | src/botik/main.py:2514-2715 | counting the unchecked registrations of exit orders too, no closed minute overflows if and only if every exit found room in the deque |
| RiskManager.TwoExitsOverflow | src/botik/main.py:2514-2715 | with one order a minute allowed, two exits a second apart make two |
| RiskManager.PlacementWithinCaps | src/botik/risk/manager.py:81-132 | a placement leaves booked total and symbol exposure (price times quantity, without leverage) within their caps for any leverage, and at most the allowed number of active symbols |
| RiskManager.AllowedIff | src/botik/risk/manager.py:81-132 | a check allows an order if and only if it is worth something, fewer than the maximum are in the deque, total and symbol exposure with its leveraged worth are within their caps, and a positive open-position cap has room |
| RiskManager.PlacedIff | src/botik/main.py:3575-3642 | under a monotone clock an accepted intent is placed if and only if it is worth something, fewer than the maximum of all registrations lie in the last 60 seconds, both exposures with its leveraged worth are within their caps, and the active symbols with its own are at most a positive cap |
| RiskManager.LeveragedWithinCapIff | src/botik/main.py:3594-3642 | the leveraged exposure after a placement stays within the cap if and only if the leverage on what was booked before fits in the room the check left; always without leverage or with nothing booked |
| RiskManager.LeverageEscapesCap | src/botik/main.py:3594-3642 | at leverage 2 and caps of 100, two placements worth 30 each are allowed and make 120 of leveraged exposure |
| RiskManager.BooksKept | src/botik/main.py:3575-3642 | over a whole loop the total is the sum of the per-symbol exposures, no exposure ends above both its cap and where it began, and active symbols never grow past their cap |
| RiskManager.LoadedSum | src/botik/main.py:3276-3300 | the exposure loaded from open orders starts as such a sum |
| RiskManager.LoopIsDisciplined | src/botik/main.py:3575-3642 | the intent loop, after any earlier limiter calls, registers only after an allowing check |
| RiskManager.SessionIsDisciplined | src/botik/main.py:3306-3642 | any number of iterations with their exits, from any state of the limiter, is a disciplined caller |
| RiskManager.SessionKeepsRateLimit | src/botik/main.py:3306-3642 | over any number of iterations, from any reached state, no closed minute sees more placed intents than the maximum; with the exits counted in, none overflows if and only if every exit found room |
| RiskManager.LoopPlaces | src/botik/main.py:3575-3642 | the loop's books are those of its intents as its checks saw them |
| RiskManager.Manager.Expire | src/botik/risk/manager.py:75-79 | the popping loop leaves the pruned deque |
| RiskManager.Manager.RegisterOrderPlaced | src/botik/risk/manager.py:67-73 | appends the stamp, then prunes |
| RiskManager.Manager.CheckOrder | src/botik/risk/manager.py:81-132 | the decision and the deque it leaves, which stays unpruned for a worthless order |
| RiskManager.TradingIteration | src/botik/main.py:3276-3642 | loading the open orders, registering the exits and walking the intents is the specified iteration, and the total ends as the sum of the per-symbol exposures |
| RiskManager.TradingLoop | src/botik/main.py:3206-3757 | iteration after iteration on one manager is the specified session |
| LotNormalizer.DownIsGreatestLot | src/botik/execution/bybit_rest.py:144-148 | rounding down gives the greatest lot not above the value |
| LotNormalizer.UpIsLeastLot | src/botik/execution/bybit_rest.py:150-154 | rounding up gives the least lot not below the value |
| LotNormalizer.Sanitize | src/botik/execution/bybit_rest.py:186-199 | a positive step is kept and otherwise a millionth, a positive minimum lot is kept and otherwise the step, a minimum notional that is not negative is kept and otherwise zero |
| LotNormalizer.NormalizeOrderQty | src/botik/execution/bybit_rest.py:229-285 | the step-by-step adjustment computes the closed form, or rejects exactly when the specification does |
| LotNormalizer.ApplyMinQty | src/botik/execution/bybit_rest.py:246-259 | after two roundings and a raise, the larger of the floored request and the minimum lot; a spot sell is rejected exactly if that is not the floored request |
| LotNormalizer.ApplyMinAmount | src/botik/execution/bybit_rest.py:261-264 | the larger of the quantity and the least lot meeting the minimum notional |
| LotNormalizer.WithinTriple | src/botik/execution/bybit_rest.py:269-285 | comparing notionals is comparing quantities with three times the request |
| LotNormalizer.ClosedFormIsLeastAdmissible | src/botik/execution/bybit_rest.py:229-285 | the closed form is the least quantity the exchange takes that is not below the floored request |
| LotNormalizer.AcceptedIff | src/botik/execution/bybit_rest.py:229-285 | other than a spot sell, a request is accepted if and only if it is positive and, with a price, its least admissible lot is at most three times it; and then as that lot |
| LotNormalizer.SpotSellIff | src/botik/execution/bybit_rest.py:229-285 | a spot sell goes through exactly when its floored request is admissible, and then as that |
| LotNormalizer.AtMostTriple | src/botik/execution/bybit_rest.py:269-285 | with a price nothing accepted exceeds three times the request |
| LotNormalizer.NoGuardWithoutPrice | src/botik/execution/bybit_rest.py:269-285 | without one every request is accepted, and exceeds three times itself exactly when the minimum lot does |
| LotNormalizer.NormalizeIsIdempotent | src/botik/execution/bybit_rest.py:229-285 | normalising an accepted quantity again changes nothing |
| RequestRetry.SendsBounded | src/botik/execution/bybit_rest.py:325-384 | a GET is sent one to four times, a POST one or two times, and the last reply is the one returned |
| RequestRetry.FourSendsIff | src/botik/execution/bybit_rest.py:325-384 | four sends happen for exactly one behaviour: error, skewed clock, error |
| RequestRetry.PostIsNotRepeated | src/botik/execution/bybit_rest.py:325-384 | a POST is never resent after a transport error; it is sent twice exactly after a skewed clock that could be resynchronised |
| Bandit.UpdateKeepsExact | src/botik/learning/bandit.py:128-134 | one update keeps count, mean and sum of squared deviations exact |
| Bandit.ArmIsExact | src/botik/learning/bandit.py:128-134 | after any rewards an arm holds their count, their mean and the sum of squared deviations from it |
| Bandit.SpreadNonNegative | src/botik/learning/bandit.py:128-134 | the sum of squared deviations never goes negative |
| Bandit.OrderDoesNotMatter | src/botik/learning/bandit.py:128-134 | any permutation of the rewards leaves the same arm |
| Bandit.Table.Update | src/botik/learning/bandit.py:39-70 | one arm moves on, every other arm stays |
| Bandit.SessionsCompose | src/botik/learning/bandit.py:39-134 | going on from a stored arm is learning all its rewards in one go |
| Bandit.LearnStream | src/botik/learning/bandit.py:39-134 | in a mixed stream, over whatever the table holds, every arm ends as if it had gone on learning its own rewards alone |
| Backtest.CalcAtr | src/botik/position/sizer.py:28-40 | the loop computes the mean of the last fourteen true ranges, 0 when there are too few candles |
| Backtest.WindowIsEnough | src/botik/backtest/backtest_runner.py:280-285 | the 50-candle window gives the same average true range as the whole history |
| Backtest.AtrIsMeanSpan | src/botik/position/sizer.py:28-40 | over sound candles the average true range is the mean, over the last fourteen, of how far each candle with the close before it reaches |
| Backtest.EntryIsSized | src/botik/backtest/backtest_runner.py:273-322 | a position opens only on twenty or more candles and a fall of the last close past the threshold from five candles before, long, at that close, with a positive quantity that is the largest allowed: its loss at the stop within the risk share of the equity, its worth within the position share, and one of the two used up, each to half a lot |
| Backtest.RiskQtyIsLargest | src/botik/position/sizer.py:98-117 | the sizing meets both shares and uses one of them up, each to half a lot |
| Backtest.OpensOn | src/botik/backtest/backtest_runner.py:273-304 | with a nonzero stop multiplier a signal needs twenty candles, and then depends on the last close, the close five before it and the average true range |
| Backtest.SignalledIff | src/botik/backtest/backtest_runner.py:286-304 | there is a signal if and only if that range is positive and the price has fallen past the threshold, and it is long |
| Backtest.OpeningDistances | src/botik/position/sizer.py:68-95 | its stop distance is the stop multiple of the range, its target distance the larger of the target multiple and one and a half times the stop multiple |
| Backtest.EntersIff | src/botik/backtest/backtest_runner.py:305-322 | a long signal opens a position if and only if its rounded stop is apart from the entry and the equity is enough for more than half a lot by both shares; its levels are then at its distances, each to half a unit of rounding |
| Backtest.PaperFollowsBacktest | src/botik/backtest/backtest_runner.py:585-666 | fed the same closes and told the same affordable entries, the paper engine, by its own exit rule, holds the same position at every candle, with balance and realised profit to match |
| Backtest.FollowsThroughoutIff | src/botik/backtest/backtest_runner.py:306-322 | it follows throughout if and only if the equity could pay for every entry with its fee, which the backtest does not check |
| Backtest.UnaffordableEntryOccurs | src/botik/position/sizer.py:98-117 | with twice the equity allowed in a position, nineteen candles at 100 and one at 80 open a position that costs 2002 on a balance of 1000 |
| Backtest.SmallShareIsAffordable | src/botik/position/sizer.py:98-117 | with positive closes and a largest share of at most 1/2.002 of the equity, every entry is paid for, fee and rounding included |
| Backtest.FuturesPnlIsRealised | src/botik/backtest/backtest_runner.py:490-540 | the futures engine's profit is what the average-cost ledger realises on the closing fill, less the exit fee |
| Backtest.TargetIsFar | src/botik/position/sizer.py:68-95 | whatever target multiple is configured, the target distance is at least one and a half times the stop distance |
| Backtest.LevelsWellSpaced | src/botik/position/sizer.py:68-95 | levels from such distances keep, through rounding, the stop distance and the minimum reward-to-risk, on opposite sides of the entry for either direction |
| Backtest.ExitIff | src/botik/backtest/backtest_runner.py:490-540 | a price at or past the stop closes a position as a stop, otherwise one at or past the target as a target, mirrored for a futures short |
| Backtest.RunOpensIff | src/botik/backtest/backtest_runner.py:257-322 | a candle between the levels of the open position changes nothing; after any other the run holds a position if and only if there are twenty candles, a positive range, a fall past the threshold, a stop apart from the price, and equity for half a lot by both shares |
| Backtest.OnlyFuturesShort | src/botik/backtest/backtest_runner.py:463-620 | given a short signal, the futures engine would open on the same conditions and the spot engine never |
| Backtest.EveryPositionCovers | src/botik/backtest/backtest_runner.py:280-322 | so every position a run opens, closed since or not, has its target at least one and a half times as far as its stop, up to rounding |
| Backtest.EveryPositionOpenedRight | src/botik/backtest/backtest_runner.py:223-331 | every position of a run, open or closed, was opened on a signal of the candles up to its own, with the largest size allowed by the equity then and its levels at the signal's distances |
| Backtest.Causality | src/botik/backtest/backtest_runner.py:236-322 | the trades and the equity curve of a prefix of the candles are a prefix of those of the whole list |
| Backtest.CurveIsLedger | src/botik/backtest/backtest_runner.py:257-271 | the curve starts at the balance and steps by exactly each trade's unrounded profit |
| Backtest.TradesInOrder | src/botik/backtest/backtest_runner.py:236-322 | at most one position is open, trades do not overlap, each is long and made by the first close at or past its stop, or at or past its target, with that reason, and earns its price difference less the engine's fees |
| Backtest.NeverShort | src/botik/backtest/backtest_runner.py:295-304 | no run of either engine ever holds a short position |
| Backtest.ReportedProfit | src/botik/backtest/backtest_runner.py:361-407 | the reported total differs from the equity change by at most 0.00005 times the number of trades plus one |
| Backtest.Runner.TickPrice | src/botik/backtest/backtest_runner.py:490-540 | one close either leaves the position or closes it with its profit and reason |
| Backtest.Runner.TryOpen | src/botik/backtest/backtest_runner.py:273-322 | the entry decision in the order of the code's early exits |
| Backtest.Runner.RunBacktest | src/botik/backtest/backtest_runner.py:223-331 | the loop over the candles is the specified fold |
| BacktestReport.Round4Near | src/botik/backtest/backtest_runner.py:361-407 | rounding to four digits gives a whole number of ten-thousandths, at most half of one from the number |
| BacktestReport.RoundsToEven | src/botik/backtest/backtest_runner.py:361-407 | rounding goes to a nearest integer, and to the even one on a tie |
| BacktestReport.ReportedTotalNear | src/botik/backtest/backtest_runner.py:361-407 | a total of rounded profits is off by at most half a unit per rounding |
| BacktestReport.ReportedTotalTracksEquity | src/botik/backtest/backtest_runner.py:361-407 | the same bound against the equity curve |
| BacktestReport.RunningDrawdown | src/botik/backtest/backtest_runner.py:59-79 | the single pass with a running peak finds the largest fall from any point to a later one |
| BacktestReport.CalcMaxDrawdown | src/botik/backtest/backtest_runner.py:59-79 | the largest fall of a curve, none for a short one; its percentage is of the size of the first point, or of one when that is zero |
| BacktestReport.MaxDrawdownUnique | src/botik/backtest/backtest_runner.py:59-79 | there is only one such number |
| Backfill.InsertAllEffect | src/botik/marketdata/ohlcv_worker.py:203-256 | insert-or-ignore keeps old rows, adds the time of every candle with a close, and each new row is such a candle of the page |
| Backfill.PageCovers | src/botik/marketdata/ohlcv_worker.py:77-113 | a page of a well-behaved source holds every candle up to the next start, and all of them if it is short |
| Backfill.Worker.SaveCandles | src/botik/marketdata/ohlcv_worker.py:203-256 | the returned count is the number of new rows, 0 when the database refuses |
| Backfill.Worker.FetchAndSave | src/botik/marketdata/ohlcv_worker.py:77-113 | one round extends what is covered to the next start, strictly forward |
| Backfill.Worker.RunBackfill | src/botik/marketdata/ohlcv_worker.py:65-113 | terminates for any source; rows are only added and the count is their number; for a well-behaved source every storable candle from start to now is in the table and nothing else is new |
| OrderBook.ReplayAt | src/botik/marketdata/ws_public.py:205-243 | after any stream each side shows at each price the last size written since the latest snapshot, and nothing where that is zero, except a zero kept from the snapshot |
| OrderBook.BookShowsLastEntry | src/botik/marketdata/ws_public.py:205-243 | each side of a book shows at a price what its own side of the messages gave last, a zero from a delta taking the price away and one from a snapshot staying |
| OrderBook.ReplayIsLastWriteIff | src/botik/marketdata/ws_public.py:205-243 | the book is the plain last-write-wins replay at a price if and only if no zero is kept there: the latest snapshot's last entry for it is not zero, or a later delta wrote it |
| OrderBook.ReplayIsLastWrite | src/botik/marketdata/ws_public.py:205-243 | so it is when no snapshot carries a zero |
| OrderBook.SizesArePositiveIff | src/botik/marketdata/ws_public.py:208-221 | a standing level has a positive size if and only if it is not a kept zero |
| OrderBook.BookToSortedList | src/botik/marketdata/ws_public.py:33-34 | lists exactly the book's levels in price order |
| OrderBook.FirstIsBest | src/botik/marketdata/ws_public.py:205-243 | the head of the sorted bids is the maximum key, that of the asks the minimum |
| OrderBook.BestLevel | src/botik/marketdata/ws_public.py:205-243 | the published level is in the book and no price beats it |
| OrderBook.NeighbourGap | src/botik/marketdata/ws_public.py:37-53 | in a sorted side no gap is smaller than the one to the next neighbour |
| OrderBook.LeastNeighbourGap | src/botik/marketdata/ws_public.py:37-53 | comparing neighbours only finds a gap no larger than any between two levels |
| OrderBook.InferTickSize | src/botik/marketdata/ws_public.py:37-53 | the tick is the least gap between any two of the top 25 levels of a side, floored at 1e-12, or the fallback when no side has two levels |
| OrderBook.Client.HandleMessage | src/botik/marketdata/ws_public.py:165-243 | a message changes only its symbol's book; the published best bid and ask are its extreme keys, and nothing is published exactly when a side is empty |
| OrderBook.Client.UpdateSymbols | src/botik/marketdata/ws_public.py:282-322 | the books' domains stay the subscribed set; kept symbols keep their books, new ones start empty |
| OrderBook.DedupKeepsEach | src/botik/marketdata/ws_public.py:282-322 | the subscription lists each requested name once and no empty one |
| OrderBook.Client.HandleStream | src/botik/marketdata/ws_public.py:165-322 | after any interleaving of messages and subscription changes, every subscribed side is the replay of what its symbol received since its latest subscription |
| SpotPaper.Conservation | src/botik/execution/spot_paper.py:79-301 | balance plus cost and entry fees of all holdings is always the initial balance plus the net profit of all sales; holdings and protection have the same symbols |
| SpotPaper.NeverOverdrawn | src/botik/execution/spot_paper.py:79-263 | with positive prices and quantities the balance never goes negative |
| SpotPaper.TickKeepsIff | src/botik/position/simple_exit.py:31-56 | a tick keeps a protected holding if and only if its price is strictly between stop and target and a positive timeout has not run out; otherwise it sells it at that price |
| SpotPaper.NoHoldingOutlivesTimeout | src/botik/execution/spot_paper.py:265-301 | after any events and a tick on a symbol, a holding of it that remains is younger than the timeout and strictly inside its levels |
| SpotPaper.RoundTripCostsFees | src/botik/execution/spot_paper.py:92-201 | buying and selling at one price costs exactly the two fees |
| SpotPaper.Engine.BuySpot | src/botik/execution/spot_paper.py:79-174 | accepted exactly for a symbol not held and a cost within the balance; the whole new ledger |
| SpotPaper.Engine.SellSpot | src/botik/execution/spot_paper.py:176-263 | the whole holding is sold with its protection; the recorded profit |
| SpotPaper.Engine.OnPriceTick | src/botik/execution/spot_paper.py:265-301 | sells exactly when stop, target or timeout says so |

## Left out

Representation:

- Floats and Decimals are exact reals; only the roundings that a property bounds are kept. Lot
  quantities and steps are positive wherever they are rounded, so rounding towards zero is taking
  the floor and rounding away from zero the ceiling.
- Clocks, time stamps, network answers and percentages are inputs.
- A database call that raises is an input where what it leaves behind matters: in the release and the
  closing writes of a reconciliation run, between the commits for one order or position
  (`ReconciliationFaults`), on an execution, in a protection attempt, and on a page of candles. A call
  is taken to have its effect or not; a statement that took effect and whose commit raised counts
  as the former.
- SQL tables are maps. One account type is modelled. Symbols and ids arrive already trimmed and in
  upper case, an absent symbol or id is the empty string, and locally generated link ids and issue
  ids never collide.
- An unreadable list element is one whose reading raises at the place where the code reads it.
- Columns, run rows and audit rows that nothing modelled reads back (mark prices, owners, detail
  texts, the protection-order table, telemetry, notifications) are not part of the model.
- The backtest's three candle buffers are one list of candles, and its wall-clock close stamps are
  candle numbers.

Behaviour:

- The spot side of reconciliation: `spot_store.py` is not part of this model. The wallet and fill
  steps appear only as the non-lock issues they raise and whether they complete.
- Emergency market closes, forced exits and exit quotes, except as resets that write off the
  tracked quantity and, for the last two, as registrations with the limiter.
- A trading iteration cut short by an exception appears as one with fewer exits or intents. The
  emergency market close never registers with the limiter, so it is not among the registrations.
- Conversion of fees to the quote currency; net profit, holding times, edge figures and entry
  prices of outcomes.
- Arm selection in the bandit (random sampling) and the bookkeeping of which signal a reward
  belongs to.
- Sharpe ratio, win rate, profit factor and Kelly sizing.
- Spot holdings reloaded from the database, which come back without stop and target, and the
  futures paper engine.
- Spread, imbalance and tick count of the published order-book aggregate; subscription batches.
- Open, high, low and volume columns of stored candles; a candle counts by its time and close.
- Signing, time synchronisation values, messaging, web interface, model training, universe ranking.

Members that state less than might be expected:

- ReconciliationFixpoint.OrphanLockIff: asks that locally made link ids are new, which every run
  keeps (`LinksStayFresh`).
- RiskManager.SessionKeepsRateLimit: one limiter's life; a restart of the session begins with an
  empty deque, so a minute that spans it is not covered.
- ExecutionSync.Runtime.RecoverOnStartup: an item that raises during startup recovery ends the
  session, so no later poll is modelled after it.
- ExecutionSync.ExactlyOnce: stated up to 20000 distinct ids, because beyond that the id set is
  emptied and the code no longer recognises repeats (see `SecondPollHarmlessIff`).
- Backtest.Causality: a stop multiplier of zero is excluded, since the code divides by it.
- Backfill.Worker.RunBackfill: coverage is stated for a source that answers with the first
  candles at or after the start, spaced by at least the interval, and a database that accepts
  every page; termination and the count hold for any source.
- ReconciliationService.Service.RunOnce: follows the release and closing writes when they raise; a
  raise between the two commits for one order or position is described on the tables alone, in
  `ReconciliationFaults`.
- Protection.GateAfterFailureIff: asks that no other row of the symbol be as recent, because
  the gates read one latest row only.
- Protection.Runtime.ApplyStop: the three replies are an input, so the pauses between tries are
  not modelled.
- SpotPaper.Conservation: for an engine that starts without persisted holdings.
