# Verification model of the trading API

A Dafny model of the stateful core of a NestJS trading backend, with proofs
about it. It covers the paper-trading ledger, the live-tick watcher index, the
server-sent-event framer and five smaller services whose promises are about
whole runs. `dafny verify dfyconfig.toml` checks everything.

## What is modelled

**The paper ledger, twice.** The backend moves cash, positions, trades and
order status across four collections without a multi-document transaction; it
relies on atomic single-document updates, a compensation step, and a commit
point (the order marked EXECUTED last).

* `Settlement` is a small-step system. Any number of `placeOrder`,
  `executeOrder` and square-off calls run at once; one step is one database
  operation of one call, and any operation may fail without applying.
  A call that is never stepped again is a crashed one. `SettlementInvariant`
  proves the invariant of every reachable state, `Reconciliation` derives the
  cash, P&L and overdraft theorems, `Idempotency` what a repeated request can
  do, and `CrashRecovery` what a stopped call leaves behind and when its order
  can be replayed. `Histories` holds the concrete histories that fail. Position
  documents and the gate's verdict are left to the environment there (reading a
  position may return anything), because position writes are unguarded
  read-modify-writes; so the theorems hold however they race.
* `Ledger`, `BookValue`, `RiskLimits` and `Trading` are the sequential account:
  the net effect of each operation for every market reply and every failing
  operation. `Holdings`, `PositionCap`, `LimitOrders` and `LimitFills` prove
  properties of all runs; `Placement`, `GateLimits`, `Resets` and `Marks` say
  when each operation answers what, and what it leaves of everything else.
  `PaperTrading` is the same services written as a class that changes its
  collections step by step; every method is proved equal to the specification,
  so the run theorems are about it.
* `Agreement` ties the two together: an execution, a flatten or a placement of
  the small-step system that runs alone does to accounts, orders and trades
  exactly what the sequential specification says.

**The watcher index** (`SignalsGateway`, `SymbolCase`): a class with the two
in-memory maps and a ghost log of the upstream calls.

**The framer** (`Sse`): the incremental splitter, proved against a
characterisation of splitting that does not mention how it is computed, and the
codec of one frame. It follows the subset of sections 9.2.5 and 9.2.6 of the
WHATWG HTML Standard that the backend uses: LF line ends and the `data` field.

**Supporting services**: `ChartLayouts` (versioned compare-and-swap),
`ChatSessions` (session chaining), `ChatBudget` and `MarketSession` (daily token
cap and its day window), `SignalStore` (deduplicated signals), `Performance`,
`Outcomes` and `Rounding` (expectancy, breakeven and bucketing).

Money, prices and quantities are exact reals, times are integer milliseconds.
Prices, clock readings, fresh ids and the success of each database operation
are parameters. `Sums`, `Arithmetic`, `Records` and `Wrappers` hold shared
definitions and facts.

## Where the code differs from its documentation

The model follows the code. Each difference is a proved statement.

* `src/portfolio/order-execution.service.ts:142-146` says a crash mid-sequence
  leaves a PENDING order with its cash restored, and replayable. Its cash is
  untouched exactly when no call executing it is between its cash movement and
  its trade or compensation, has failed to compensate, or stopped between its
  trade and its status (`CrashRecovery.PendingCashUntouchedIff`; a history that
  fails it is `Histories.CrashKeepsCashDebited`). Under exactly that condition
  a replay leaves one trade and one cash movement; it fills a second time
  exactly when a trade is already stored (`CrashRecovery.ReplayIsCleanIff`; a
  history is `Histories.ReplayFillsTwice`).
* Cash is never negative exactly when no compensation of a SELL finds less cash
  than it takes back (`Reconciliation.NeverNegativeIff`). A BUY that spends the
  proceeds of a SELL that is then taken back overdraws the account
  (`Histories.UnwoundSaleOverdraws`; `Reconciliation.CashFloor` is the bound
  that always holds).
* A failed trade insert after the position write is compensated in cash only,
  so the books no longer balance, by exactly the cost moved
  (`BookValue.ExecuteDrift`, `BookValue.ExecuteBalancedIff`,
  `BookValue.FailedTradeUnbalances`).
* The five-position limit is checked when an order is placed. LIMIT orders are
  not checked again when they fill, so any affordable number of positions can be
  opened (`LimitFills.LimitFillsPassTheCap`).
* `src/portfolio/risk-limits.service.ts:172` prices any order with a limit price
  at that price, MARKET orders included, while the fill happens at the market.
  The filled account is blocked exactly when the risk limit is exceeded at the
  price of the fill (`RiskLimits.FilledIsBlockedIff`), and a MARKET order gated
  at one paisa gets there (`RiskLimits.MarketOrderGatedAtItsLimit`).
* The gate adds the risk of an order to that of the held position, but averaging
  moves shares to another stop. For every position, order and price it
  under-estimates exactly when averaging lowers the quantity-weighted stop
  (`RiskLimits.GateUnderestimatesIff`), as when an order lowers the stop or the
  average falls below it (`RiskLimits.LoweredStopUnderestimated`,
  `RiskLimits.LostStopUnderestimated`).
* A reset that fails after deleting the positions leaves the cash they cost
  unaccounted for (`BookValue.ResetBalancedIff`,
  `BookValue.FailedResetUnbalances`).
* A chart save promises that nobody's unseen drawings are overwritten. That
  holds between clears, and fails across one, because a clear restarts the
  version numbers (`ChartLayouts.ClearReusesVersions`).
* Pair keys join symbol and exchange with a colon. With a colon in an exchange
  two pairs share a key and a count; a pair's count is its own exactly when nobody
  watches another pair under its key (`SignalsGateway.DecodeIff`,
  `SignalsGateway.CountIsClientsIff`, `SignalsGateway.ColonsCollide`). Nothing
  validates the exchange of a subscription.
* `src/signals/eval.ts:82-84` gives expectancy as win rate times average win
  less loss rate times average loss. The code's expectancy agrees exactly when
  the stopped-out trades did not make money on average
  (`Performance.DocumentedExpectancyIff`, `Performance.ProfitableStopsMislead`).
* `src/chat/chat-sessions.service.ts:63-65` says a turn reported twice updates its
  record; the upsert only sets fields on insert, so it changes nothing
  (`ChatSessions.ReReportChangesNothing`).
* The dedupe guard treats a zero entry price as missing, so such signals repeat
  (`SignalStore.ZeroEntryStoredIff`).

## Model

| member | source | states |
|---|---|---|
| Settlement.FindByKey | src/portfolio/paper-trading.service.ts:118-123 | the order stored under a user's key, and none exactly when no order carries it |
| SettlementInvariant.ApplyKeepsInv | src/portfolio/order-execution.service.ts:49-188 | every step of every call, whatever its reply, keeps the invariant tying control points, orders, trades and keys together |
| SettlementInvariant.ReachableInv | src/portfolio/order-execution.service.ts:49-188 | the invariant holds in every state any interleaving can reach |
| Reconciliation.StepMoves | src/portfolio/order-execution.service.ts:91-175 | one operation changes an account's cash and realised P&L by exactly what it books plus what its call now owes, less what it owed before |
| Reconciliation.CashFollowsTrades | src/portfolio/order-execution.service.ts:91-216 | in every reachable state cash is opening capital plus booked trades plus movements in flight plus failed compensations, and realised P&L likewise |
| Reconciliation.SettledBooksMatchTrades | src/portfolio/order-execution.service.ts:190-216 | once all calls ended and no compensation failed, the trade log alone explains cash and realised P&L |
| Reconciliation.CashFloor | src/portfolio/order-execution.service.ts:92-112 | with positive prices cash never falls below minus the SELL proceeds taken back; with none taken back it is never negative, however many BUYs race |
| Reconciliation.StepOverdrawsIff | src/portfolio/order-execution.service.ts:97-207 | from a balance that is not negative, one operation makes it negative exactly when it compensates a SELL and finds less cash than it takes |
| Reconciliation.NeverNegativeIff | src/portfolio/order-execution.service.ts:97-207 | over every history with positive prices, cash is never negative exactly when no compensation of a SELL overdraws |
| CrashRecovery.MovedIsNet | src/portfolio/order-execution.service.ts:91-216 | the sum of everything one call's operations did to an account's cash is its booked trade, its movement in flight and its failed compensation |
| CrashRecovery.CallCashUntouchedIff | src/portfolio/order-execution.service.ts:142-175 | over every positive history a call has moved nothing exactly when it booked no trade, is not between movement and trade or compensation, and did not fail to compensate |
| CrashRecovery.PendingCashUntouchedIff | src/portfolio/order-execution.service.ts:142-146 | the cash moved by all calls executing a PENDING order is zero exactly when each of them left nothing and none stopped between trade and status |
| CrashRecovery.ReplayIsCleanIff | src/portfolio/order-execution.service.ts:142-180 | from any positive history and any PENDING order that passes its checks, the history continues by one direct execution to exactly its own cash movement, trade and status; it leaves two or more trades exactly when one was stored before, and one trade with one cash movement exactly when the order's cash was untouched |
| Idempotency.OneOrderPerKey | src/portfolio/schemas/paper-order.schema.ts:109-116 | in every reachable state at most one order carries a user's key |
| Idempotency.OneExecutionPerKey | src/portfolio/paper-trading.service.ts:70-111 | of all placements under one key at most one inserts, executes or trades |
| Idempotency.SameAnswer | src/portfolio/paper-trading.service.ts:113-146 | all placements under one key that return name the same stored order |
| Idempotency.LoserFindsWinner | src/portfolio/paper-trading.service.ts:91-98 | a placement that loses the race on the unique index always finds the winner's order, so the race is a success |
| Idempotency.OneTradePerOrder | src/portfolio/order-execution.service.ts:157-180 | two trades of one order need a direct execution of it; placing alone books at most one |
| Idempotency.ExecutedOrderHasItsFill | src/portfolio/order-execution.service.ts:160-180 | an EXECUTED order has a trade with its side and quantity at its executed price, in every reachable state |
| Idempotency.RetryReturnsTrade | src/portfolio/paper-trading.service.ts:125-134 | a retry that sees EXECUTED returns a trade of that order |
| Idempotency.PendingOrderHasTradeIff | src/portfolio/order-execution.service.ts:142-180 | a PENDING order already has a trade exactly when some call stopped between the trade insert and the order save |
| Idempotency.LosesAccountRaceIff | src/portfolio/portfolio-accounts.service.ts:64-75 | of the placements that found no account the first to create it opens it and goes on; the others throw on the unique index and leave everything as it was |
| Idempotency.NeedsAccountIff | src/portfolio/order-execution.service.ts:64-65 | a direct execution or flatten throws before fetching a price exactly when the order's account does not exist |
| Histories.CrashKeepsCashDebited | src/portfolio/order-execution.service.ts:142-146 | a history with positive prices whose only call is a BUY stopped between debit and position write: the order is PENDING, nothing is booked and its cash stays debited, against the comment there |
| Histories.ReplayFillsTwice | src/portfolio/order-execution.service.ts:142-180 | a history with positive prices after which an order is PENDING with its trade stored, continued by one direct execution into a second trade and a second debit |
| Histories.UnwoundSaleOverdraws | src/portfolio/order-execution.service.ts:133-175 | a history with positive prices in which shares are bought and fully booked, sold, the proceeds spent by a second BUY, and the SELL then unwound, leaving cash at -1000 |
| Ledger.FindPosition | src/portfolio/order-execution.service.ts:227-230 | finds a position of the account and symbol, and reports none only when there is none |
| Ledger.Refused | src/portfolio/order-execution.service.ts:54-127 | an execution that is not refused has a PENDING order of an existing account, a price within a declared limit, and cash or shares to cover it; one refused for its limit is strictly on the wrong side of it |
| LimitOrders.LimitNotReachedIff | src/portfolio/order-execution.service.ts:75-83 | an execution throws for the limit exactly when it is a priced LIMIT order with a non-zero limit and the price is above it for a BUY, below it for a SELL; nothing changes |
| LimitOrders.ExecuteFillsIff | src/portfolio/order-execution.service.ts:49-188 | without a failing operation an order fills exactly when it is PENDING, the requester's, priced, on the right side of its limit and covered; its trade carries its terms at the market's price |
| LimitOrders.UncoveredIsRejectedIff | src/portfolio/order-execution.service.ts:103-123 | an order with a good price is refused for cash or shares exactly when they do not cover it, and is then stored as REJECTED with nothing else moved |
| LimitOrders.EarlyFailures | src/portfolio/order-execution.service.ts:54-127 | an operation that fails before the cash moves leaves the book as it was; a covered order never reaches the storing of a rejection |
| LimitOrders.LimitTradesHonourTheirLimit | src/portfolio/order-execution.service.ts:70-84 | over every sequential run, whatever fails, no trade of a stored LIMIT order with a limit costs a BUY more than its limit or brings a SELL less |
| LimitOrders.RacingTradesHonourTheirLimit | src/portfolio/order-execution.service.ts:70-84 | the same in every reachable state of the interleaving system, executions of one order racing included |
| LimitOrders.QuoteThrowsIff | src/portfolio/order-execution.service.ts:75-83 | in any state, a call that gets its price throws at once exactly when that is strictly on the wrong side of a declared limit, and otherwise goes on with that price |
| BookValue.ExecuteKeepsWellFormed | src/portfolio/order-execution.service.ts:49-188 | any execution, failing anywhere, keeps one positive position per symbol with unrealised P&L equal to (mark less average) times quantity |
| BookValue.AveragingKeepsCost | src/portfolio/order-execution.service.ts:232-240 | new average times new quantity is old cost plus the price paid |
| BookValue.WriteMovesCost | src/portfolio/order-execution.service.ts:222-272 | a position write moves the account's total cost by the price paid, or by the average cost given up, and no other account's |
| BookValue.ExecuteDrift | src/portfolio/order-execution.service.ts:91-216 | an execution unbalances cash plus cost against capital plus P&L by exactly the drift of the operation that failed |
| BookValue.ExecuteBalancedIff | src/portfolio/order-execution.service.ts:150-216 | a filling execution keeps the account balanced exactly when no trade insert fails after the position write and no compensation of a position write fails |
| BookValue.FailedTradeUnbalances | src/portfolio/order-execution.service.ts:150-175 | ten bought at 100 whose trade insert fails after the position write: cash is restored, the position stays, the books are 1000 over |
| BookValue.FailedCompensationUnbalances | src/portfolio/order-execution.service.ts:191-216 | the same BUY whose position write and compensation fail: the books are 1000 short |
| BookValue.TotalPnlIsGain | src/portfolio/portfolio-accounts.service.ts:97-130 | reported total P&L is total value less opening capital exactly when the account is balanced |
| BookValue.ResetDrift | src/portfolio/portfolio-accounts.service.ts:78-91 | a reset that is saved balances its account at zero P&L; one that fails unbalances it by the cost of the positions it deleted; no other account moves |
| BookValue.ResetBalancedIff | src/portfolio/portfolio-accounts.service.ts:78-91 | a balanced account stays balanced through a reset exactly when it is saved, or the positions survive or cost nothing |
| BookValue.FailedResetUnbalances | src/portfolio/portfolio-accounts.service.ts:78-91 | ten held at 100 and a reset whose deletions apply and whose save fails: the books are 1000 short |
| Resets.ResetForgets | src/portfolio/portfolio-accounts.service.ts:80-84 | each deletion that applied leaves no order, no position, no trade of the account |
| Resets.ResetSparesOthers | src/portfolio/portfolio-accounts.service.ts:80-84 | whatever fails, every other account keeps its balances, every order unchanged, and its positions and trades in order |
| Resets.SavedResetReopens | src/portfolio/portfolio-accounts.service.ts:78-91 | a saved reset leaves its account all cash at its opening capital, with no P&L, position, order or trade |
| Resets.ResetReturnsToOpening | src/portfolio/portfolio-accounts.service.ts:64-91 | an account opened with some capital has that as cash, and is back at exactly that after any run and a saved reset |
| Resets.ResetAndExecuteCommute | src/portfolio/portfolio-accounts.service.ts:78-91 | resetting one account and executing another's order give the same books and the same answer in either order, whatever fails in either |
| BookValue.RefreshDrift | src/portfolio/portfolio-accounts.service.ts:174-201 | marking to market does not move the balance between cash, cost and P&L |
| BookValue.ViewIsOwn | src/portfolio/portfolio-accounts.service.ts:97-130 | reported value, unrealised and total P&L are the account's balances plus sums over its own positions |
| Marks.RefreshWrites | src/portfolio/portfolio-accounts.service.ts:179-187 | every quoted position of the user is marked at its quote with the P&L that follows; every other position, and everything else, is as it was |
| Marks.RefreshMovesValue | src/portfolio/portfolio-accounts.service.ts:174-201 | a refresh moves account value, unrealised and total P&L each by the sum of quantity times quote less old mark |
| Marks.FullyQuotedValue | src/portfolio/portfolio-accounts.service.ts:174-201 | with every symbol quoted, account value is cash plus quantities at the quotes, whatever the old marks |
| Marks.LastQuoteWins | src/portfolio/portfolio-accounts.service.ts:188-194 | two refreshes are one with the newer quotes in front: a symbol that could not be priced again keeps its last mark |
| Trading.BooksBalance | src/portfolio/portfolio-accounts.service.ts:78-130 | over every sequential run whose faults keep the balance: cash plus cost is capital plus P&L, every position's unrealised P&L is right, and the reported total P&L is the gain |
| Trading.FlattenAt | src/portfolio/paper-trading.service.ts:172-206 | flattening a held position removes exactly it unless the failure came before its write, and is reported closed at the market price exactly when it succeeded |
| Trading.SquareOffReport | src/portfolio/paper-trading.service.ts:166-210 | one report line per position in order, and the positions left are those whose flatten failed before its write |
| Trading.FailedStayOpen | src/portfolio/paper-trading.service.ts:166-210 | when no failure follows a position write, the positions left open are exactly those reported failed |
| Trading.CleanSquareOffFlattens | src/portfolio/paper-trading.service.ts:166-210 | a square-off without failures leaves no position, and every account's cash is opening capital plus realised P&L |
| Holdings.PositionsFollowTrades | src/portfolio/order-execution.service.ts:113-272 | over every sequential run without a failed trade insert or a reset that deletes only one of positions and trades, held quantity is BUYs less SELLs since reset, positive exactly when a position exists, with its average cost between the lowest and highest BUY since it opened |
| Holdings.AverageBetween | src/portfolio/order-execution.service.ts:232-236 | the new average lies between the old average and the price paid |
| PositionCap.ExecuteOpensIff | src/portfolio/order-execution.service.ts:222-272 | an execution opens a position exactly when it fills a BUY of a symbol not held and its write stays |
| PositionCap.AtMostFivePositions | src/portfolio/risk-limits.service.ts:87-114 | over every run of placements, marks, resets and square-offs, at any fill prices and with any faults, no account holds more than five positions |
| PositionCap.SellsAreNotGated | src/portfolio/paper-trading.service.ts:100-108 | the outcome of placing a SELL does not depend on the gate and is never a risk refusal |
| Placement.RestsIff | src/portfolio/paper-trading.service.ts:70-111 | a placement rests exactly when it stores a LIMIT order nothing is held against; it then adds only the PENDING order |
| Placement.FillsIff | src/portfolio/paper-trading.service.ts:70-111 | without a failing operation a placement fills exactly when it stores a MARKET order nothing is held against that is priced and covered, at the market's price whatever its limit price |
| Placement.RepeatChangesNothing | src/portfolio/paper-trading.service.ts:113-134 | a request under a stored key is answered with an order of that key and changes no order, position or trade |
| Placement.GateRejects | src/portfolio/risk-limits.service.ts:161-209 | a BUY the gate turns away is answered with the gate's reason and stored as REJECTED; nothing else moves |
| Placement.LossHaltsBuys | src/portfolio/risk-limits.service.ts:108-113 | once this session's trades have lost 3%, every new BUY the account could pay for is refused and adds only its REJECTED order |
| LimitFills.LimitFillsPassTheCap | src/portfolio/paper-trading.service.ts:100-110 | for every number of positions the capital can pay for, a run whose every placement is a LIMIT order opens that many |
| RiskLimits.FillAtAnyPrice | src/portfolio/risk-limits.service.ts:75-209 | a BUY of a symbol not held that passed the gate and fills at any price it can pay keeps account value and session P&L, opens one position, and carries the predicted risk corrected from the gate's price to the fill's |
| RiskLimits.FilledIsBlockedIff | src/portfolio/risk-limits.service.ts:108-129 | the filled account is blocked exactly when the risk limit is exceeded at the price of the fill |
| RiskLimits.GatePredictsFill | src/portfolio/risk-limits.service.ts:75-209 | filled at the gate's own price, account value is unchanged, the open risk is the predicted one and the account is not blocked |
| RiskLimits.MarketOrderGatedAtItsLimit | src/portfolio/risk-limits.service.ts:169-209 | a MARKET BUY of 900 with a limit price of 0.01 passes the gate, fills at 100 and leaves the account over its risk limit |
| RiskLimits.GateErrorIs | src/portfolio/risk-limits.service.ts:55-97 | for every position, order and price, risk after averaging differs from the gate's prediction by exactly the effective stop the averaged shares lost |
| RiskLimits.HeldFillAtAnyPrice | src/portfolio/risk-limits.service.ts:75-209 | a BUY of a held symbol that passed the gate and fills at any price it can pay: open risk is the prediction plus the gate's error on the position plus the averaged position's risk at the fill's price beyond that at the gate's; value moves by the new mark of the held shares |
| RiskLimits.HeldFillIsBlockedIff | src/portfolio/risk-limits.service.ts:104-129 | the account is then blocked exactly when its session loss or averaged risk exceeds a limit of its re-marked value |
| GateLimits.SessionPnlIsTodays | src/portfolio/risk-limits.service.ts:79-82 | for a log split at this session's 09:15 IST, session P&L is what the account's trades from then on realised; earlier ones and other accounts' add nothing |
| GateLimits.ExecuteMovesSessionPnl | src/portfolio/risk-limits.service.ts:79-102 | an execution moves session P&L exactly when it books a SELL of the account at or after the open, by price less average cost for each share |
| GateLimits.StateIsOwn | src/portfolio/risk-limits.service.ts:84-89 | account value, the account's own open positions and the sum of their risks are what is measured |
| GateLimits.RiskInside | src/portfolio/risk-limits.service.ts:55-67 | the risk of a position with a positive size and cost lies strictly between nothing and its cost, whatever stop it declares |
| GateLimits.StopCountsIff | src/portfolio/risk-limits.service.ts:55-67 | without a stop the risk is 5% of cost; a declared stop changes it exactly when it is strictly between zero and average cost and not where the assumption puts it |
| GateLimits.BlockedIff | src/portfolio/risk-limits.service.ts:104-129 | which limit blocks: daily loss exactly at a session loss of 3% of a positive value, then a sixth position, then open risk over 3% of value |
| GateLimits.GateIff | src/portfolio/risk-limits.service.ts:169-209 | the gate's verdict on every order over a log split at 09:15: no price, not enough cash, one of the three limits, or none; yesterday's trades do not matter |
| RiskLimits.RiskAdditive | src/portfolio/risk-limits.service.ts:55-97 | the prediction is exact when neither side declares a stop, or both share one below both prices |
| RiskLimits.GateUnderestimatesIff | src/portfolio/risk-limits.service.ts:55-97 | for every position, order and price the gate under-estimates exactly when averaging lowers the quantity-weighted stop, whether the averaged position keeps a valid stop or falls back to 5% |
| RiskLimits.HeldStopError | src/portfolio/risk-limits.service.ts:91-97 | an order without a stop takes on the held one: the error is the distance from its assumed stop to the held stop, times its quantity |
| RiskLimits.LoweredStopUnderestimated | src/portfolio/risk-limits.service.ts:91-97 | ten at 100 with a stop at 95 and ten at 110 with one at 90: real risk is 50 above the prediction |
| RiskLimits.LostStopUnderestimated | src/portfolio/risk-limits.service.ts:55-97 | ten at 100 without a stop and ten at 110 with one at 108: real risk is 35 above the prediction |
| PaperTrading.PaperTradingService.EnsurePortfolio | src/portfolio/portfolio-accounts.service.ts:64-75 | an account is created once, with its capital as cash, and never overwritten |
| PaperTrading.PaperTradingService.ResetPortfolio | src/portfolio/portfolio-accounts.service.ts:78-91 | the account's positions, orders and trades go and then its cash returns to capital, with any of the deletions or the save failing; nothing else changes |
| PaperTrading.PaperTradingService.GetPortfolio | src/portfolio/portfolio-accounts.service.ts:97-130 | the view of the account, whose total P&L is its gain exactly when the books balance |
| PaperTrading.PaperTradingService.RefreshPositionPrices | src/portfolio/portfolio-accounts.service.ts:174-201 | each of the user's positions is marked or reported stale in stored order, none other moves, and the counts add up |
| PaperTrading.StaleIff | src/portfolio/portfolio-accounts.service.ts:179-194 | a symbol is reported stale exactly when some position of the user in it could not be priced |
| PaperTrading.PaperTradingService.CompensateCash | src/portfolio/order-execution.service.ts:190-216 | restores exactly the movement of one execution, or nothing when it fails |
| PaperTrading.PaperTradingService.UpsertPosition | src/portfolio/order-execution.service.ts:222-257 | the in-place update is the specified weighted average, mark and newest declared stop |
| PaperTrading.PaperTradingService.ReducePosition | src/portfolio/order-execution.service.ts:259-272 | the position shrinks at unchanged average cost, and is deleted at zero |
| PaperTrading.PaperTradingService.FillOrder | src/portfolio/order-execution.service.ts:86-188 | cash, position, trade, status in that order, with the compensation, has the specified net effect for every failing operation |
| PaperTrading.PaperTradingService.ExecuteOrder | src/portfolio/order-execution.service.ts:49-188 | checks and fill together move the stored collections as the sequential specification says |
| PaperTrading.PaperTradingService.PlaceOrder | src/portfolio/paper-trading.service.ts:62-111 | repeat answered, order inserted, BUY gated, MARKET filled: the new collections and the outcome, for every reply and fault |
| PaperTrading.PaperTradingService.SquareOffAll | src/portfolio/paper-trading.service.ts:166-210 | the loop yields the specified book and report; closed plus failed is the number of positions seen |
| Agreement.ExecutionAlone | src/portfolio/order-execution.service.ts:49-188 | the small-step execution run alone ends within nine steps with the accounts, orders, trades and outcome of the sequential specification, for every price and failing operation |
| Agreement.FlattenAlone | src/portfolio/paper-trading.service.ts:172-206 | the small-step flatten of one position run alone ends as the sequential flatten does |
| Agreement.PlacementAlone | src/portfolio/paper-trading.service.ts:62-146 | the small-step placement run alone ends within fourteen steps as the sequential placement does: repeated, refused, resting, filled or thrown |
| Agreement.SoloIsAHistory | src/portfolio/order-execution.service.ts:49-188 | running alone is one of the histories of the interleaving system |
| SignalsGateway.DecodeIff | src/signals/signals.gateway.ts:266-271 | decoding a pair's key at its last colon gives the pair back exactly when the exchange holds no colon |
| SignalsGateway.KeysInjective | src/signals/signals.gateway.ts:172 | with colon-free exchanges, equal keys mean equal pairs |
| SignalsGateway.KeysCollide | src/signals/signals.gateway.ts:172 | for every pair whose exchange holds a colon there is another pair with the same key |
| SignalsGateway.CountIsClients | src/signals/signals.gateway.ts:159-178 | a pair's stored count is the number of clients watching it, and absent exactly when there is none |
| SignalsGateway.CountIsClientsIff | src/signals/signals.gateway.ts:159-178 | a pair's stored count is the number of clients watching it exactly when nobody watches another pair under its key, whatever the exchanges hold |
| SignalsGateway.DecrementAgrees | src/signals/signals.gateway.ts:232-241 | counting down when a client stops watching keeps every count equal to its watchers, with no zero entry |
| SignalsGateway.PairCallsAlternate | src/signals/signals.gateway.ts:174-177 | in a log whose exchanges hold no colon the upstream calls of each pair alternate, starting with a subscribe |
| SignalsGateway.Serve | src/signals/signals.gateway.ts:133-241 | over every list of messages no watched or called name holds a lower-case letter; if their exchanges hold no colon, counts are watching clients, each pair's calls alternate, and the last is a subscribe exactly while somebody watches |
| SignalsGateway.SignalsGateway.HandleSubscribeSymbol | src/signals/signals.gateway.ts:144-178 | keeps the index valid; malformed and repeated messages send nothing, a switch leaves the old pair before joining the new, and calls are sent exactly on the first and last watcher |
| SignalsGateway.SignalsGateway.HandleUnsubscribeSymbol | src/signals/signals.gateway.ts:208-230 | keeps the index valid; a duplicate or mismatched unsubscribe changes nothing, the last watcher's sends one unsubscribe |
| SignalsGateway.SignalsGateway.HandleDisconnect | src/signals/signals.gateway.ts:133-141 | keeps the index valid, forgets the client, and sends only unsubscribes of its own pairs |
| SignalsGateway.SignalsGateway.DecrementWatcher | src/signals/signals.gateway.ts:232-241 | one watcher fewer; the last one removes the entry and sends the unsubscribe, keeping the calls alternating |
| SignalsGateway.SignalsGateway.GetActiveSymbols | src/signals/signals.gateway.ts:266-271 | decodes the keys whose last call was a subscribe; with colon-free exchanges exactly the pairs some client watches |
| SignalsGateway.ColonsCollide | src/signals/signals.gateway.ts:172-177 | a run in which a pair stays subscribed upstream with no watcher, because another pair shares its key |
| SignalsGateway.Requested | src/signals/signals.gateway.ts:149-154 | a message names a pair exactly when both fields are present and not empty; the pair has the message's characters with no lower-case ASCII letter |
| SignalsGateway.SamePairIff | src/signals/signals.gateway.ts:153-154 | two messages name the same pair exactly when they differ at most in the case of ASCII letters |
| SymbolCase.SameEffect | src/signals/signals.gateway.ts:144-230 | two messages that differ only in case have the same effect on watchers, counts and calls |
| SymbolCase.SubscribeThenUnsubscribe | src/signals/signals.gateway.ts:144-230 | subscribing in one case and unsubscribing in another restores watchers and counts, and sends nothing, or one subscribe and its unsubscribe |
| SymbolCase.TwoClientsOneFeed | src/signals/signals.gateway.ts:159-178 | two clients asking for one pair, each in its own case, share one count of two and one upstream subscribe |
| Sse.SplitCharacterised | src/common/http/sse.ts:26-33 | splitting is the only cut whose parts hold no separator, end in no newline and join back to the text: nothing is lost or repeated |
| Sse.SplitResumes | src/common/http/sse.ts:26-33 | splitting a longer text is splitting its prefix and resuming from the last part |
| Sse.SseFrames.Push | src/common/http/sse.ts:26-33 | returns the non-blank complete parts of buffer plus chunk and keeps the incomplete one, which holds no separator |
| Sse.ChunkingDoesNotMatter | src/common/http/sse.ts:18-34 | however a text is cut, the frames and the final buffer are those of pushing it whole |
| Sse.BlankIff | src/common/http/sse.ts:32 | a part is dropped exactly when all its characters are white space |
| Sse.NonBlankIff | src/common/http/sse.ts:32 | the filter keeps exactly the parts with a character that is not white space, each in its place |
| Sse.IsSpaceIff | src/common/http/sse.ts:32 | white space by code point, as `String.trim` counts it |
| Sse.TrimStrips | src/common/http/sse.ts:47 | trimming takes away all white space around a text and nothing of the text |
| Sse.BodyReadsBack | src/common/http/sse.ts:43-61 | the payload of an encoded frame reads back as itself |
| Sse.SeveralLinesReadBack | src/common/http/sse.ts:43-56 | a payload sent as several data lines, blank ones included, is read as what each holds, trimmed, joined line by line |
| Sse.OtherLinesAreIgnored | src/common/http/sse.ts:45-47 | a comment or another field anywhere in a frame does not change what is read from it |
| Sse.RoundTrip | src/common/http/sse.ts:26-61 | payloads framed, concatenated, cut anywhere and pushed come back exactly and in order, with an empty buffer |
| ChartLayouts.ChartLayoutsService.SaveLayout | src/chart-layouts/chart-layouts.service.ts:58-100 | a save lands exactly when the stored version is the one named, returns what it stored, and otherwise changes nothing and reports the current version |
| ChartLayouts.ChartLayoutsService.ClearLayout | src/chart-layouts/chart-layouts.service.ts:103-106 | removes that key's chart and no other |
| ChartLayouts.VersionCountsSaves | src/chart-layouts/chart-layouts.service.ts:58-106 | in every interleaving the stored version is the number of accepted saves since the last clear |
| ChartLayouts.OneWinnerPerVersion | src/chart-layouts/chart-layouts.service.ts:62-80 | between clears exactly one save is accepted for each version passed, and none for any other |
| ChartLayouts.SaveReplacesWhatWasRead | src/chart-layouts/chart-layouts.service.ts:50-57 | with no clear in between, an accepted save replaces exactly the chart its author read |
| ChartLayouts.FirstSaveMeetsNothing | src/chart-layouts/chart-layouts.service.ts:74-80 | an accepted first save replaces no stored chart, whatever happened before |
| ChartLayouts.ClearReusesVersions | src/chart-layouts/chart-layouts.service.ts:103-106 | for every chart read, a clear and as many saves put any other chart under its version, which a stale save then overwrites |
| ChatSessions.Latest | src/chat/chat-sessions.service.ts:117-120 | the newest turn of a user and symbol |
| ChatSessions.ChatSessionsService.ResolveSessionId | src/chat/chat-sessions.service.ts:110-127 | the session of the latest turn if it is young enough and no new one is forced, otherwise a fresh one |
| ChatSessions.ChatSessionsService.RecordTurn | src/chat/chat-sessions.service.ts:69-102 | appends the turn to its session; drops one without an id, and returns the stored turn unchanged on a repeat |
| ChatSessions.SessionsAreBlocks | src/chat/chat-sessions.service.ts:69-127 | each session is one contiguous block of a single user's and symbol's history, with inner gaps under two hours and no forced start |
| ChatSessions.BoundaryIff | src/chat/chat-sessions.service.ts:110-127 | neighbouring turns of a history are in different sessions exactly when a new one was forced or two hours passed |
| ChatSessions.SessionsNeverMix | src/chat/chat-sessions.service.ts:104-114 | no session ever holds turns of two users or two symbols, whatever the clock does |
| ChatSessions.ReReportChangesNothing | src/chat/chat-sessions.service.ts:60-68 | reporting a turn id again, however late, changes no stored turn |
| ChatSessions.TurnsAreWrittenOnce | src/chat/chat-sessions.service.ts:84-101 | later reports only append: every stored turn stays as first written |
| MarketSession.DayStartIsTheMidnight | src/common/market-session.ts:55-64 | the one midnight IST whose 24 hours contain the instant |
| MarketSession.SessionStartIsTheOpen | src/common/market-session.ts:32-45 | the one 09:15 IST whose 24 hours contain the instant |
| MarketSession.DaysPartitionTime | src/common/market-session.ts:55-64 | days are disjoint windows that each contain exactly their own instants, in order |
| ChatBudget.AdmittedIff | src/chat/chat-budget.service.ts:73-121 | after any history a turn is admitted exactly while the tokens recorded that IST day are below the cap |
| ChatBudget.OvershootBound | src/chat/chat-budget.service.ts:73-121 | in every interleaving the tokens of one day stay within cap less one plus, for each turn in flight or admitted blind, the most a turn costs; turns across midnight included |
| ChatBudget.BoundIsReached | src/chat/chat-budget.service.ts:101-108 | for every cap, concurrency and cost some lawful history reaches that bound exactly |
| ChatBudget.ZeroCapAdmitsNothing | src/chat/chat-budget.service.ts:110-121 | a cap of zero or less admits nothing while the budget is readable |
| ChatBudget.FreshDayRefusedIff | src/chat/chat-budget.service.ts:46-70 | the first turn of a day is refused exactly for an override of zero or less; no configuration or failed lookup does that |
| ChatBudget.AdmittedUnderIff | src/chat/chat-budget.service.ts:46-121 | whose cap decides: any override; otherwise the configured cap if positive; otherwise 400,000 |
| ChatBudget.RemainingIsTheRest | src/chat/chat-budget.service.ts:88-95 | what is reported as left makes up the cap together with what was spent, and is nothing beyond it |
| ChatBudget.TurnsAreConserved | src/chat/chat-budget.service.ts:101-121 | every admitted turn is in flight, recorded or abandoned, exactly once |
| SignalStore.RestatesIff | src/signals/eval.ts:146-166 | a signal restates another exactly when symbol, direction and window match and the entries are within half a percent of the incoming one; negative entries always, zero entries never |
| SignalStore.RestatedIff | src/signals/signals.service.ts:44-63 | querying the recent signals and comparing with them refuses exactly when some young stored signal is restated |
| SignalStore.SignalsService.PersistSignal | src/signals/signals.service.ts:37-84 | stores and broadcasts a signal unless it restates a young one, its key is taken or its time is unreadable |
| SignalStore.StoredSetupsAreApart | src/signals/signals.service.ts:40-70 | over every run, two stored signals of one symbol and direction within four hours differ in entry by more than half a percent of the later, unless the later entry is zero |
| SignalStore.OneIdeaStoredOnce | src/signals/eval.ts:112-126 | an idea republished any number of times within the window is stored once |
| SignalStore.RetryIsANoOp | src/signals/signals.service.ts:28-36 | a stored signal published again, at any later time, is not stored twice |
| SignalStore.OtherSetupsDoNotMatter | src/signals/signals.service.ts:40-70 | a stored signal of another symbol or direction never bears on a publication |
| SignalStore.TakenIff | src/signals/signals.service.ts:28-36 | a key is taken exactly by a stored signal of the same symbol, direction and time of generation |
| SignalStore.ZeroEntryStoredIff | src/signals/eval.ts:152-153 | a signal with a zero entry is kept out only by its key |
| SignalStore.ZeroEntriesRepeat | src/signals/eval.ts:152-153 | a zero-priced setup is stored again a millisecond later, the counterexample to dedupe at a zero entry |
| Outcomes.IndexOutcomes | src/signals/eval.ts:64-75 | each id is mapped to the last row naming it; rows without an id are dropped |
| Outcomes.OrderDoesNotMatter | src/signals/eval.ts:56-63 | with distinct ids a reordered response pairs every signal with the same outcome |
| Outcomes.PairedWithLastRow | src/signals/eval.ts:64-75 | a signal carries the figures of the last row naming it, a missing P&L counting as zero, and none exactly when no row names it |
| Outcomes.CountsCover | src/signals/signals.service.ts:139-166 | the summary's wins, losses, open and no-data counts add up to the evaluated signals |
| Outcomes.GroupBy | src/signals/eval.ts:219-228 | one group per occurring key, listed once, holding that key's outcomes in order |
| Outcomes.BucketsConserve | src/signals/eval.ts:219-238 | whatever is summed over the outcomes (trades, wins, P&L) is the sum over the buckets |
| Outcomes.BucketBy | src/signals/eval.ts:219-241 | one bucket for every occurring key with that key's figures, most trades first, counting every outcome once |
| Outcomes.BucketHasFigures | src/signals/eval.ts:229-238 | a bucket reports its number of outcomes, their win share to the nearest percent and their mean P&L to the nearest hundredth |
| Performance.ExpectancyDecomposes | src/signals/eval.ts:178-199 | mean P&L of closed outcomes is win share times average win plus loss share times signed mean loss |
| Performance.ReportedFigures | src/signals/eval.ts:204-217 | every reported figure is the exact one to within half a step of its rounding, and is missing exactly when that is |
| Performance.NothingToReport | src/signals/eval.ts:170-192 | without wins there is no average win, without losses no average loss, ratio or breakeven, without outcomes no rate and no expectancy |
| Performance.DeviationsAre | src/signals/eval.ts:198-201 | the squared deviations from the mean add up to the sum of squares less mean times sum |
| Performance.NoErrorIff | src/signals/eval.ts:196-203 | the standard error is zero exactly when every outcome made the same |
| Performance.DocumentedExpectancyIff | src/signals/eval.ts:77-89 | the documented formula is the expectancy exactly when the mean loss is not positive |
| Performance.BreakevenExistsIff | src/signals/eval.ts:189-192 | a breakeven is reported exactly when average loss, and its sum with the average win, are positive |
| Performance.BeatsBreakevenIff | src/signals/eval.ts:186-197 | with a negative mean loss, the win rate exceeds breakeven exactly when expectancy is positive |
| Performance.BreakevenTestsTheFormula | src/signals/eval.ts:186-189 | whenever a breakeven is reported, the win rate exceeds it exactly when the documented formula is positive |
| Performance.ProfitableStopsMislead | src/signals/eval.ts:181-197 | outcomes whose win rate does not exceed breakeven although every trade made money |
| Performance.SpansZeroIff | src/signals/eval.ts:196-203 | before rounding the interval spans zero exactly when mean squared times n(n - 1) is at most 1.96 squared times the summed squared deviations |
| Performance.InconclusiveIff | src/signals/eval.ts:196-216 | as reported the flag is set exactly for at most one outcome, or when the mean less half a hundredth is within the sample's own spread |
| Performance.ConclusiveSettlesTheSign | src/signals/eval.ts:107-110 | a conclusive sample has a non-zero mean, and every mean within the sample's spread of it has the same sign |
| Performance.ShownComparison | src/signals/eval.ts:208-217 | after rounding, a win rate shown above breakeven means positive expectancy, and the other way fails only for rates less than 0.01 apart |
| Performance.ShownExpectancyIsHonest | src/signals/eval.ts:208-217 | a shown positive expectancy is positive and puts the win rate above breakeven |
| Rounding.RoundIsNear | src/portfolio/paper-trading.types.ts:144-146 | rounding to two decimals moves a number by at most 0.005 |
| Rounding.RoundSign | src/portfolio/paper-trading.types.ts:144-146 | a rounded number is non-positive exactly below 0.005, and non-negative exactly from -0.005 |
| Rounding.RoundIsMonotone | src/portfolio/paper-trading.types.ts:144-146 | rounding never reverses an order |

## Left out

- Controllers, guards, authentication, HTTP, logging and error texts: wiring.
- Socket rooms, Redis ticks and `chart_state`: no shared bookkeeping to keep.
- IEEE-754 rounding: prices and quantities are exact reals, so a share of a rupee lost in floating point is not modelled.
- UTF-8 decoding before `push`: the framer works on characters. A payload that is JSON `null` is read like any other, although the reader's callers cannot tell it from none.
- Upper-casing: subscriptions fold ASCII letters only; order, chart and chat symbols are taken as already upper-cased.
- Settlement: position documents and the gate's verdict are the environment's, `upsertPosition` (a read and a write) is one step, resets do not interleave, and trade times are not recorded. Agreement therefore compares accounts, orders and undated trades, not positions.
- An operation that applied and whose reply was lost (a trade insert that times out after storing, say): a failing operation does not apply. With a lost reply the caller would compensate a trade that is stored, and Reconciliation.CashFollowsTrades would not hold.
- Concurrent position writes, concurrent resets and two executions of one order id: the code has no guard there, so nothing is claimed beyond cash, P&L, trades and keys.
- PaperTrading.PaperTradingService.FillOrder: takes the failing operation as a parameter instead of throwing; `executeOrder` is split into its checks and its fill.
- PaperTrading.PaperTradingService.GetPortfolio: mark age and staleness are not reported.
- RiskLimits.GatePredictsFill: states the risk state before display rounding; the rounded risk-state fields are not modelled.
- SignalsGateway.SignalsGateway.GetActiveSymbols: returns a set, so the order of keys and of the calls of one disconnect is not captured.
- ChatSessions.ChatSessionsService.RecordTurn: one instant stands for the age check and the creation time; stored events, usage and the other fields of a turn are one `answer`.
- ChatSessions.SessionsAreBlocks: reports are made one after another; two concurrent reports may both start a session.
- SignalStore.SignalsService.PersistSignal: one instant stands for the window check and the creation time, and publications are one after another.
- ChatBudget.OvershootBound: reading the spent tokens and admitting the turn are one step, at the instant of the read.
- Performance: the standard error is a parameter constrained to be the square root the code computes, since exact reals have no square-root operation here; the results are stated without it.
- `evaluatePerformance` beyond its counts, watchlists, alerts, admin lists, indicator ownership, `capEvents`, and the proxies to other services: they would add only easy members.
