# Verified model of the demo broker and its gateway

This project models, in Dafny 4.11, the parts of the trading platform whose
correctness is hardest to see by reading, and proves what they promise.

- **The demo broker.** A hedging account with open positions, working orders,
  append-only history and deals, money in whole cents and one ticket counter for
  all accounts. `Market`, `Book` and `Engine` give quotes, valuations and every
  dealer request and evaluation step as functions; `EngineProofs`, `Equity`,
  `Requests`, `Passes`, `Ticks` and `Runs` prove what requests and ticks do and what
  whole runs keep; `Broker` is the
  imperative broker, proved to do exactly those steps; `Wallet` moves money
  between accounts.
- **Its incremental store.** `Rows` and `Store` model the tables and the save that
  writes only what was added; `PgStore` is the imperative store; `StoreRuns` runs
  engine and store together through failing saves and restarts.
- **Idempotent submission.** `Idempotency` has the abstract expiring map and the
  two stores that refine it; `Submission` interleaves any number of callers; `ResultPoll`
  waits for the dealer's result.
- **Charts and the broker clock.** `Chart` rolls bars into buckets, `ChartFetch`
  fetches a long window in chunks, `BrokerClock` estimates the clock offset.
- **The WebSocket hub** (`Hub`), **the upstream connection** (`Connection`), **the
  rate limiter** (`TokenBucket`) and **the trade-request rewrite**
  (`TradeRequest`).

Where the program updates objects or maps step by step, the model has classes and
methods with loops; each method is proved equal to a function of the old state,
and the properties are lemmas about that function. Clocks, quotes, upstream
replies, failures, jitter and the order in which maps are walked are inputs or
free choices, so every statement holds for all of them.

Some promises of the code's own comments do not hold as written. The model
follows the code, and each is stated exactly:

- a deposit or withdrawal of an exact half cent can move the balance and the deal
  differently (`Runs.CreditedBase`, `Runs.HalfCentDrift`);
- a pending order's price and a position's stops are checked before they are rounded
  to the grid, so that the quote they were checked against can fill or hit them at
  once (`Requests.PlacedWaits`, `Requests.OffGridFills`, `Requests.ModifiedStopsHold`,
  `Requests.OffGridStops`); modifying an order rounds first
  (`Requests.ModifiedWaits`);
- history and deals count as append-only "(a reset empties them)", but a reset
  account that regrows to the remembered count before the next save loses the new
  rows (`Store.SaveLoadRoundTrip`, `Store.WholeAfterReset`);
- a commit that takes effect but reports an error leaves the remembered count
  behind, and the old rows of a reset account can then read back beside the new
  ones; the same check tells exactly when (`StoreRuns.SaveReadsBack`,
  `StoreRuns.RegrownDealLost`);
- of several spellings of one field "the canonical one wins", but without it among
  them the result can depend on the order in which a map is walked
  (`TradeRequest.DeterminedIff`, `TradeRequest.SpellingsCollide`);
- a clock reading "can only ever understate": the first one is compared with an
  instant taken before the upstream is asked and can overstate too, which rounding
  absorbs below half an hour (`BrokerClock.RoundStale`, `BrokerClock.NeverAhead`);
- chunk boundaries do not overlap: the loop goes on one second below a chunk, and
  stops short of the window's first second when the strides fit it exactly
  (`ChartFetch.CompleteIff`, `ChartFetch.FirstBarLost`);
- widening to whole buckets truncates toward zero, which is right only from the
  first whole bucket after the broker's epoch on (`Chart.WindowWhole`);
- at most one submission per key holds per lifetime of the claim, not for a dealer
  slower than that (`Submission.AtMostOnce`, `Submission.BoundIsTight`);
- duration names are not inverses: an end-of-day deadline comes back as a plain
  one (`TradeRequest.DurationRoundTrip`).

`dafny verify dfyconfig.toml` checks everything.

## Model

| member | source | states |
|---|---|---|
| Rounding.Round | backend/cmd/demomarket/broker.go:300 | nearest whole cent, an exact half away from zero; the clauses determine the result |
| Rounding.RoundShift | backend/cmd/demomarket/broker.go:679-684 | rounding a balance after adding an amount agrees with adding the rounded amount exactly when no half cent turns the other way |
| Rounding.RoundSplit | backend/cmd/demomarket/broker.go:650-674 | rounding two parts of an amount moves the total by at most one cent |
| Market.ToUsdLinear | backend/cmd/demomarket/broker.go:328-342 | at fixed quotes the conversion multiplies every amount by one positive rate, whichever pair is listed |
| Market.MarginGrows | backend/cmd/demomarket/broker.go:356-362 | more volume at the same price never needs less margin |
| Market.FloatingProfitSplit | backend/cmd/demomarket/broker.go:364-377 | valuing a volume in two parts changes the total by at most a cent, for any quote, side and contract |
| Market.ProfitIsRevaluation | backend/cmd/demomarket/broker.go:344-377 | for an instrument quoted in dollars a long position gains exactly what its notional value gains |
| Market.EuroLot | backend/cmd/demomarket/broker.go:356-377 | one lot of EURUSD at 1.1 and 1:100 takes 1100 dollars of margin, and a pip is worth ten dollars, at the side where the position closes |
| Market.YenLot | backend/cmd/demomarket/broker.go:328-377 | one lot of USDJPY is margined in its own dollars, and its profit converted back at the middle of the quote |
| Market.CrossLot | backend/cmd/demomarket/broker.go:328-377 | one lot of EURGBP is margined at the middle EURUSD rate and its profit converted at the middle GBPUSD rate |
| Market.WeekdaysOnly | backend/cmd/demomarket/instruments.go:114-125 | an instrument that does not trade all week trades exactly in the first five days counted from Monday 00:00 UTC |
| Book.SumOverRemove | backend/cmd/demomarket/broker.go:384-393 | the summed profit and margin of an account do not depend on the order in which its positions are walked |
| EngineProofs.HandleProper | backend/cmd/demomarket/broker.go:514-541 | every dealer request, accepted or refused, keeps the account sound, issues each new ticket once, only appends to history and deals, settles money into the balance and conserves volume, storage and commission per position |
| EngineProofs.SettleProper | backend/cmd/demomarket/broker.go:650-674 | the same for one full or partial close |
| EngineProofs.OpenedProper | backend/cmd/demomarket/broker.go:600-609 | the same for an accepted market order: position, filled order and entry deal agree |
| EngineProofs.FillProper | backend/cmd/demomarket/broker.go:996-1003 | the same for the fill of a resting order; a limit is filled at its price or better |
| EngineProofs.PlacePendingProper | backend/cmd/demomarket/broker.go:704-749 | the same for placing a pending order |
| EngineProofs.ModifyWorkingProper | backend/cmd/demomarket/broker.go:780-830 | the same for modifying one: its volume stays valid, its kind does not change |
| EngineProofs.FinishProper | backend/cmd/demomarket/broker.go:845-853 | the same for cancelling, expiring or rejecting one: it moves to history once, with its whole volume unfilled |
| EngineProofs.EvaluateProper | backend/cmd/demomarket/broker.go:888-897 | the same for a whole evaluation pass over an account |
| EngineProofs.SettleIsReduced | backend/cmd/demomarket/broker.go:650-674 | a settle books exactly what the position loses: deal plus remainder carry its volume, storage and commission |
| Equity.SettleEquity | backend/cmd/demomarket/broker.go:650-674 | at fixed quotes a full close leaves equity exactly unchanged and takes its margin away; a partial close moves equity by at most a cent and never raises margin |
| Equity.OpenGuard | backend/cmd/demomarket/broker.go:596-612 | a market order is refused for money exactly when it would leave less free margin than the new position's own floating profit |
| Equity.FillGuard | backend/cmd/demomarket/broker.go:990-1003 | a reached order is filled or rejected by exactly the same test |
| Equity.WithdrawalGuard | backend/cmd/demomarket/broker.go:1355-1358 | an accepted withdrawal, in whole cents or not, leaves free margin non-negative |
| Equity.WithdrawalExact | backend/cmd/demomarket/broker.go:1355-1358 | in whole cents a withdrawal goes through exactly when free margin is not negative afterwards |
| Equity.FlatEquity | backend/cmd/demomarket/broker.go:380-401 | without positions balance and credit are all equity and all of it is free |
| Equity.EndangeredIff | backend/cmd/demomarket/broker.go:1022-1027 | an account is in danger exactly when it uses margin and its equity is at most half of it, to the hundredth of a percent |
| Equity.WorstOfIsWorst | backend/cmd/demomarket/broker.go:1028-1040 | the scan finds the quotable position with the lowest floating profit, of equals the lowest ticket, and finds one whenever there is one |
| Equity.StopOutPicksWorst | backend/cmd/demomarket/broker.go:1028-1044 | a forced close settles that position in full and nothing else |
| Equity.StopOutKeepsEquity | backend/cmd/demomarket/broker.go:1022-1047 | each forced close leaves equity exactly unchanged and never raises margin |
| Equity.StopOutLevelRises | backend/cmd/demomarket/broker.go:397-399 | with non-negative equity the margin level never falls between two closures |
| Equity.StopOutOutcome | backend/cmd/demomarket/broker.go:1022-1047 | the loop keeps equity and ends safe, or has spent every round on closing one quotable position |
| Equity.StopOutRescues | backend/cmd/demomarket/broker.go:1022-1047 | with at most 64 quotable positions it ends with no margin in use or a level above 50 % |
| Equity.StopOutWithoutEquity | backend/cmd/demomarket/broker.go:1023 | the bound of 64 is exact: without equity the loop closes all quotable positions or 64 of them, and ends in danger exactly when more remain |
| Passes.CheckStopsExact | backend/cmd/demomarket/broker.go:901-931 | the stop pass closes exactly the positions whose stop or target the market has touched, each with one deal over its whole volume at its closing side, and leaves every other one as it was |
| Passes.CheckPendingVerdict | backend/cmd/demomarket/broker.go:935-1006 | each working order gets the one outcome its lifetime, the market and the margin call for: a reached one becomes a position at the fill price if the free margin, after all lower tickets had their turn, covers it, and is rejected if not; a stop-limit is never filled in the pass that triggers it |
| Passes.ReachedFills | backend/cmd/demomarket/broker.go:953-985 | a limit or stop is reached exactly when the quote is no longer on the far side of its price, and trades at the ask if a buy and the bid if a sell; a stop-limit is triggered likewise |
| Ticks.EvaluateOutcome | backend/cmd/demomarket/broker.go:888-897 | one evaluation closes every position whose stop or target is touched, for that reason and at its closing side; lapses every expired order; fills or rejects every reached one by the free margin at its turn; leaves every other position and order as it was unless it has to liquidate, in full and marked as such; and leaves an account of at most 64 positions and orders out of danger |
| Ticks.TickEvaluates | backend/cmd/demomarket/broker.go:868-897 | one tick over a consistent book does that to every account it visits, whatever the order of the accounts |
| Requests.HandleAtomic | backend/cmd/demomarket/broker.go:514-541 | a refused request changes neither the account nor the ticket counter; an accepted one found its market open, unless it removed an order |
| Requests.MarketOpens | backend/cmd/demomarket/broker.go:555-572 | a market is open exactly when its instrument is listed, in session and quoted with a positive bid and ask |
| Requests.OpenAccepted | backend/cmd/demomarket/broker.go:573-612 | a market order is accepted exactly when side, volume, market, stops and free margin allow it; it opens one position on the terms of the request at the ask or bid, with one order and one deal, and answers with them |
| Requests.CloseAccepted | backend/cmd/demomarket/broker.go:616-644 | a close is accepted exactly when the position is held, the side opposite, a part a valid volume and the market open; it takes the volume asked for, or all of it if none or more is asked, leaves the rest open on its terms, books one deal over it at the closing side and answers with it; an invalid part is refused as such |
| Requests.PlaceAccepted | backend/cmd/demomarket/broker.go:704-749 | a pending order is accepted exactly when its kind, volume, market, price, stops and deadline allow it, and rests on the terms of the request; nothing else changes |
| Requests.StopsAccepted | backend/cmd/demomarket/broker.go:751-778 | new stops are accepted exactly when the position is held, its market open, they lie beside its closing price and change something |
| Requests.ModifyAccepted | backend/cmd/demomarket/broker.go:780-830 | a modification is accepted exactly when the order is working, its market open, the new threshold on the right side, the stops beside the new price and a new volume valid; it replaces the terms given and nothing else |
| Requests.RemoveAccepted | backend/cmd/demomarket/broker.go:832-842 | a removal is accepted exactly when the order is working |
| Requests.RefusalNamesFault | backend/cmd/demomarket/broker.go:514-541 | the fault that a refusal names is there |
| Requests.LifetimeOver | backend/cmd/demomarket/broker.go:935-952 | a day order lapses at the first UTC midnight after it was set, a dated one from its deadline on, any other never |
| Requests.WaitsIff | backend/cmd/demomarket/broker.go:935-985 | at an open market an unexpired order waits if and only if its threshold is on the side the market has to come from |
| Requests.PlacedWaits | backend/cmd/demomarket/broker.go:704-749 | an accepted pending order is stored at its prices rounded to the grid; it was checked before rounding, and waits while the quote stands if and only if its threshold is on the right side once rounded |
| Requests.OffGridFills | backend/cmd/demomarket/broker.go:724-741 | a buy limit at 1.099999 on five digits, with the ask at 1.1, is accepted, rests at 1.1 and fills at once, dearer than asked |
| Requests.ModifiedWaits | backend/cmd/demomarket/broker.go:780-830 | a modification is checked by the rounded prices: an accepted one leaves them, and an order that waits while the quote stands unless its new lifetime is already over |
| Requests.RemovedEnds | backend/cmd/demomarket/broker.go:832-853 | an accepted removal ends the order as Canceled and touches no position, deal or balance |
| Requests.ModifiedStopsHold | backend/cmd/demomarket/broker.go:751-778 | accepted stops of a position are stored rounded, nothing else changes, and the quote they were checked against does not hit them if and only if they are clear of it once rounded |
| Requests.OffGridStops | backend/cmd/demomarket/broker.go:762-773 | a stop at 1.099999 on a five-digit position, with the bid at 1.1, is accepted, becomes 1.1 and is hit by the same quote |
| Requests.OpenedStopsHold | backend/cmd/demomarket/broker.go:592-603 | a new position is stopped by its own opening quote if and only if its stop lies within the spread |
| Requests.OpenCloseCost | backend/cmd/demomarket/broker.go:573-644 | opening and closing again at one quote restores positions and orders and lowers the balance by exactly the spread |
| Requests.SpreadCosts | backend/cmd/demomarket/broker.go:364-377 | which is never a gain while the bid is not above the ask |
| Runs.StartsConsistent | backend/cmd/demomarket/broker.go:188-196 | an empty broker satisfies the invariant |
| Runs.StepSafe | backend/cmd/demomarket/broker.go:514-541 | every event on any account keeps the invariant of the whole broker; without a reset, accounts continue |
| Runs.RunConsistent | backend/cmd/demomarket/broker.go:294-298 | over any run all accounts are sound, no ticket of an order or deal appears twice in the whole book, all are below the counter, every position has the ticket of a filled order in its own history and the net volume of its deals, every deal but a balance operation is explained by a filled order, a limit at its price or better, and the user store mirrors every balance |
| Runs.RunContinues | backend/cmd/demomarket/broker.go:855-865 | over any run without a reset of the account, history and deals only grow, every working order meets one fate and costs are conserved |
| Runs.MoneyConserved | backend/cmd/demomarket/broker.go:646-684 | after any such run with whole-cent movements the balance is the opening balance plus profit, storage and commission over all deals |
| Runs.MoneyFromFirstTouch | backend/cmd/demomarket/broker.go:274-292 | the same for an account that the run itself creates, its user enrolled before or on the way: it starts from the balance the user store first held for it |
| Runs.CreditedBase | backend/cmd/demomarket/broker.go:1348-1361 | a deposit or withdrawal keeps that law if and only if its amount is not a half cent that the balance turns the other way |
| Runs.HalfCentDrift | backend/cmd/demomarket/broker.go:1358-1359 | withdrawing half a cent from a dollar books a one-cent deal and leaves the balance: the law fails |
| Runs.NeverReissued | backend/cmd/demomarket/broker.go:1406-1416 | whatever happens in between, resets included, a ticket an account holds was its own before or is fresh |
| Runs.OrderLife | backend/cmd/demomarket/broker.go:832-858 | an order working at the start is still Placed and not in history, or has exactly one history entry in a final state, with nothing left to fill exactly when Filled |
| Runs.CostsBooked | backend/cmd/demomarket/broker.go:650-674 | a position that was open and is gone has booked exactly its storage and commission, in however many closes, and its entry and exit volumes cancel |
| Runs.FirstTouchOpens | backend/cmd/demomarket/broker.go:274-292 | a login the user store knows is opened with its balance and currency, dollars by default, and a leverage of 1:100 |
| Runs.ResetEmpties | backend/cmd/demomarket/broker.go:1406-1421 | a reset leaves only login, currency and credit, sets the balance in book and user store, and touches no other account |
| Runs.LeverageSet | backend/cmd/demomarket/broker.go:1293-1305 | a positive leverage is set, any other ignored, and nothing else changes |
| Runs.EnrollKnows | backend/cmd/demomarket/users.go:689-716 | enrolling makes an unknown login known with its record and nothing else |
| Broker.SummaryFor | backend/cmd/demomarket/broker.go:384-401 | the loop over positions, in any order, computes the account's equity, margin, free margin and level |
| Broker.SortedTickets | backend/cmd/demomarket/broker.go:1049-1065 | positions and orders are walked in ascending ticket order |
| Broker.DemoBroker.SettlePosition | backend/cmd/demomarket/broker.go:650-674 | updates account, counter and user store exactly as the specified settle does |
| Broker.DemoBroker.OpenAtMarket | backend/cmd/demomarket/broker.go:573-612 | opens or refuses as specified, with the specified answer |
| Broker.DemoBroker.CloseAtMarket | backend/cmd/demomarket/broker.go:616-644 | closes in full or in part or refuses as specified |
| Broker.DemoBroker.PlaceOrder | backend/cmd/demomarket/broker.go:704-749 | rests the order or refuses as specified |
| Broker.DemoBroker.ChangeStops | backend/cmd/demomarket/broker.go:751-778 | moves stop and target or refuses as specified |
| Broker.DemoBroker.ChangeOrder | backend/cmd/demomarket/broker.go:780-830 | modifies the working order or refuses as specified |
| Broker.DemoBroker.DropOrder | backend/cmd/demomarket/broker.go:832-842 | cancels the working order or refuses as specified |
| Broker.DemoBroker.RunStops | backend/cmd/demomarket/broker.go:901-931 | the in-place stop pass equals the specified pass |
| Broker.DemoBroker.RunPending | backend/cmd/demomarket/broker.go:935-1006 | the in-place pending pass equals the specified pass and keeps the account sound |
| Broker.DemoBroker.RunStopOut | backend/cmd/demomarket/broker.go:1022-1047 | the liquidation loop equals the specified loop and mirrors the balance |
| Broker.DemoBroker.Acct | backend/cmd/demomarket/broker.go:274-292 | finds the account or creates it from the user store on first touch |
| Broker.DemoBroker.Dispatch | backend/cmd/demomarket/broker.go:514-541 | one request changes the whole broker by exactly one step, with the specified answer |
| Broker.DemoBroker.MoveMoney | backend/cmd/demomarket/broker.go:1348-1361 | a balance operation is exactly one step and reports whether it was affordable |
| Broker.DemoBroker.ChangeLeverage | backend/cmd/demomarket/broker.go:1293-1305 | a leverage change is exactly one step |
| Broker.DemoBroker.ResetAccount | backend/cmd/demomarket/broker.go:1406-1421 | a reset is exactly one step |
| Broker.DemoBroker.EvaluateEveryone | backend/cmd/demomarket/broker.go:888-897 | one tick evaluates every account once, in some order, is exactly one step, and leaves each account as an evaluation of it does |
| Wallet.LegMoves | backend/cmd/demomarket/broker.go:1348-1361 | a leg moves exactly its amount on its own account or nothing, and no other balance |
| Wallet.TransferConserves | backend/cmd/demomarket/clientarea.go:647-660 | with any other activity between the legs, what leaves the source reaches the target or comes back whole; the reversal always succeeds |
| Wallet.Transfer | backend/cmd/demomarket/clientarea.go:632-661 | a transfer goes through exactly when both accounts are the client's own, distinct and of one kind, the amount is in range, the source can spare it and the target is known; its amount reaches the target then and only then, and the sum of the two balances and every third balance never change |
| Rows.SaveListExact | backend/cmd/demomarket/store.go:344-365 | saving a list past a remembered count stores it whole when it is shorter than the count or extends what is stored; otherwise the stored rows stay and only the tail is added |
| Rows.SaveListFresh | backend/cmd/demomarket/store.go:351-365 | with an exact count no appended row meets an existing one |
| Rows.SaveOpenExact | backend/cmd/demomarket/store.go:339-342 | rewriting working rows touches no row of another account and no historical row |
| Rows.ListedExact | backend/cmd/demomarket/store.go:252-276 | reading rows by login, sequence and ticket gives back the list in order |
| Store.LoadExact | backend/cmd/demomarket/store.go:203-307 | tables that hold a book read back as exactly that book |
| Store.SaveOneExact | backend/cmd/demomarket/store.go:324-367 | saving one account meets no position conflict and leaves tables holding it and every other account |
| Store.NoConflict | backend/cmd/demomarket/store.go:380-394 | when one account is saved with exact counts no insert, of a position, order or deal, meets an existing row |
| Store.SaveUnopposed | backend/cmd/demomarket/store.go:380-394 | nor for any account of a whole save, in whatever order they are walked |
| Store.SaveAllExact | backend/cmd/demomarket/store.go:309-378 | a save holds the new book whatever order the accounts are walked in |
| Store.SaveAllSettles | backend/cmd/demomarket/store.go:309-378 | whatever counts are remembered, a save meets no stored position, and stores each account as it is if its lists pass the check and with a row too many or missing if not |
| Store.SaveLoadRoundTrip | backend/cmd/demomarket/store.go:343-365 | after a save, whatever counts are remembered, the load gives back exactly the saved book if and only if every list extends what was stored, at least up to its count, or is strictly shorter than the count |
| Store.WholeAfterReset | backend/cmd/demomarket/store.go:346-357 | for an account reset since its last save that comes down to lengths: nothing was stored, or the new list is still shorter |
| PgStore.PgBrokerStore.Save | backend/cmd/demomarket/store.go:309-378 | the queued statements and the transaction do what the specified save does; a failed or refused one changes neither tables nor counts |
| Store.HoldsOneSort | backend/cmd/demomarket/store.go:124-178 | tables that hold a book meet what loading presumes of their rows |
| PgStore.PgBrokerStore.Load | backend/cmd/demomarket/store.go:203-307 | the row loops build the specified book and set the counts |
| StoreRuns.Starts | backend/cmd/demomarket/store.go:194-199 | an empty broker over empty tables satisfies the invariant |
| StoreRuns.LineageSucceeds | backend/cmd/demomarket/broker.go:855-865 | a book the engine reaches can be saved over any earlier one: no ticket changed hands, each account grew or was emptied |
| StoreRuns.NoClash | backend/cmd/demomarket/store.go:339-342 | no save in a reachable system is refused for a position already stored |
| StoreRuns.SaveReadsBack | backend/cmd/demomarket/store.go:309-378 | in any reachable system, also after commits that were not acknowledged, the copy being saved reads back if and only if every account passes the length-or-prefix check |
| StoreRuns.RegrownDealLost | backend/cmd/demomarket/store.go:343-378 | from an empty broker: deposit, save, reset, deposit, save; the second deal is lost behind the first when the first save was acknowledged, and read back beside it when not |
| StoreRuns.RunUnopposed | backend/cmd/demomarket/store.go:380-394 | in any run whose commits are acknowledged no insert of any save takes its conflict branch |
| StoreRuns.RestartKeeps | backend/cmd/demomarket/broker.go:220-241 | adopting the stored book after a restart restores the whole invariant, user balances included |
| StoreRuns.RunLoads | backend/cmd/demomarket/broker.go:246-267 | over any run of engine events, saves that succeed, fail or commit without acknowledgement, and restarts, guarded by that check, the tables read back as the last book written |
| StoreRuns.RunWithoutResets | backend/cmd/demomarket/store.go:181-190 | while nobody resets an account no check is needed |
| Idempotency.AlikeStep | backend/internal/domain/idempotency.go:20-31 | stores with the same live entries answer alike and stay alike |
| Idempotency.ClaimsExclude | backend/internal/domain/idempotency.go:20-31 | a key can be claimed exactly while nothing live is under it; a stored result is found until it expires; releasing frees a claim and never a result |
| Idempotency.SweepUnobservable | backend/internal/domain/idempotency.go:110-124 | dropping any expired entries at any time never changes an answer |
| Idempotency.MemoryStore.Sweep | backend/internal/domain/idempotency.go:114-124 | removes only expired entries |
| Idempotency.MemoryStore.Load | backend/internal/domain/idempotency.go:57-71 | answers as the abstract expiring map |
| Idempotency.MemoryStore.Claim | backend/internal/domain/idempotency.go:74-88 | grants exactly when the abstract map has no live entry |
| Idempotency.MemoryStore.Store | backend/internal/domain/idempotency.go:91-98 | records the result as the abstract map |
| Idempotency.MemoryStore.Release | backend/internal/domain/idempotency.go:101-108 | drops only an in-flight claim |
| Idempotency.RedisStore.Load | backend/internal/cache/idempotency.go:33-45 | answers as the same abstract map, the marker never being a result |
| Idempotency.RedisStore.Claim | backend/internal/cache/idempotency.go:48-50 | grants exactly as the abstract map |
| Idempotency.RedisStore.Store | backend/internal/cache/idempotency.go:53-55 | records as the abstract map |
| Idempotency.RedisStore.Release | backend/internal/cache/idempotency.go:57-71 | compare-and-delete is the abstract release |
| Submission.ClaimLapsed | backend/internal/domain/trade.go:305-321 | a claim is granted only after every earlier claim of the key has lapsed |
| Submission.AtMostOnce | backend/internal/domain/trade.go:291-331 | for any callers, interleaving and store failures each caller reaches the dealer at most once, and the claims behind two submissions of one key lie more than the lifetime apart |
| Submission.ReplaysAreAnswers | backend/internal/domain/trade.go:302-318 | every replayed answer is the dealer's answer to another caller of the key, and the replaying caller never reached the dealer |
| Submission.ResultReplayed | backend/internal/domain/trade.go:302-330 | once a caller's answer has been stored, every caller of the key that looks for it within the lifetime, at first or while waiting, ends with it replayed, whatever happened in between short of another result being stored |
| Submission.FailedClaimNeverSends | backend/internal/domain/trade.go:305-312 | a caller whose claim fails, whether or not the store acted on it, ends not submitted and never reaches the dealer |
| Submission.RefusedAwaits | backend/internal/domain/trade.go:313-321 | a caller refused the claim waits with ten polls and changes nothing |
| Submission.AwaitEnds | backend/internal/domain/trade.go:333-360 | a waiting caller has ended after one step more than its polls left |
| Submission.AwaitsOn | backend/internal/domain/trade.go:333-360 | and not before, unless it has its result or goes away |
| Submission.BoundIsTight | backend/internal/domain/trade.go:305-331 | the bound is exact: a dealer slower than the lifetime lets a second caller through one instant after it |
| ResultPoll.Poll | backend/internal/domain/trade.go:195-231 | the first populated result wins; giving up means no poll found one and the caller left or the whole budget was spent, with one more poll after the last delay |
| ResultPoll.DefaultPolls | backend/internal/domain/trade.go:157-173 | with the default budget that is ten polls |
| Chart.StepSeconds | backend/internal/domain/tick.go:678-684 | a width is zero or at least two minutes, so the aggregation may divide by it |
| Chart.AggregateIntraday | backend/internal/domain/tick.go:697-735 | the bucket loop computes the specified aggregate |
| Chart.SortStable | backend/internal/domain/tick.go:701-703 | bars of one time keep the order they came in |
| Chart.RollAscending | backend/internal/domain/tick.go:706-708 | output times are strictly ascending |
| Chart.RollAligned | backend/internal/domain/tick.go:707 | every output time starts a bucket on the broker's clock |
| Chart.BucketDescribed | backend/internal/domain/tick.go:706-733 | each output bar opens with its bucket's first bar, closes with its last, spans its extremes and totals its volume when any bar has one |
| Chart.EveryBarCounted | backend/internal/domain/tick.go:706-733 | no bar is lost |
| Chart.AggregateSplit | backend/internal/domain/tick.go:697-735 | aggregating two sets that no bucket straddles is joining their aggregates |
| Chart.AggregateTwice | backend/internal/domain/tick.go:697-735 | aggregating to a width and then to a multiple of it is aggregating to the multiple at once |
| Chart.WindowWhole | backend/internal/domain/tick.go:743-756 | the widened window holds every minute of each bucket it touches if and only if it starts at or after the first whole bucket of the broker's clock |
| ChartFetch.WalkChunks | backend/internal/domain/tick.go:345-368 | the newest-first loop gathers exactly one window ending at the requested end |
| ChartFetch.FetchRange | backend/internal/domain/tick.go:340-380 | the result is the bars of a window ending where asked, ascending and without repeats, whatever chunks fail after the first |
| ChartFetch.StopExact | backend/internal/domain/tick.go:347-368 | where an undisturbed walk ends, for any window |
| ChartFetch.CompleteIff | backend/internal/domain/tick.go:332-339 | with no failing or empty chunk and 25 chunks enough, the result is complete if and only if the window is not an exact number of strides with a bar on its first second |
| ChartFetch.FirstBarLost | backend/internal/domain/tick.go:348 | a window of one stride loses the bar on its first second |
| BrokerClock.Resolver.AcceptReading | backend/internal/domain/tick.go:241-263 | the fields change exactly as specified |
| BrokerClock.Resolver.ObserveTick | backend/internal/domain/tick.go:215-225 | a reading is examined only when the cached one has aged; the offset in force is returned |
| BrokerClock.Resolver.Refresh | backend/internal/domain/tick.go:194-205 | a background reading is examined whatever the age of the cached one |
| BrokerClock.RoundStale | backend/internal/domain/tick.go:312-318 | exactly when a reading that is stale, or ahead, rounds no higher than the truth, and exactly when it rounds to it |
| BrokerClock.NeverAhead | backend/internal/domain/tick.go:154-240 | the held offset never exceeds the true one, however stale the readings and however long, short of half an hour, they took |
| BrokerClock.FreshSets | backend/internal/domain/tick.go:130-147 | one examined reading less than half an hour off sets it exactly |
| BrokerClock.Throttled | backend/internal/domain/tick.go:148-225 | for thirty seconds after a plausible reading was examined no foreground reading changes anything |
| BrokerClock.ExactSurvives | backend/internal/domain/tick.go:248-262 | an exact offset survives a reading if and only if it agrees, is implausible or comes within a day of the last confirmation |
| BrokerClock.StaysExact | backend/internal/domain/tick.go:110-115 | it stays exact while examined readings come within a day of the last fresh one |
| BrokerClock.DecreaseWaits | backend/internal/domain/tick.go:248-253 | after a real decrease the old offset is held for a day after its last confirmation |
| BrokerClock.DecreaseLands | backend/internal/domain/tick.go:255-262 | and the first fresh reading examined after that day lands the new one |
| BrokerClock.ImplausibleIgnored | backend/internal/domain/tick.go:242-247 | an offset beyond 14 hours changes nothing |
| Hub.Subscriber.Deliver | backend/internal/realtime/hub.go:190-215 | the message always gets in, last, within capacity, however the writer interleaves; the drop counter rises exactly when the queue was full and never by less than what was lost |
| Hub.SubsequenceDrop | backend/internal/realtime/hub.go:190-193 | evicting a message keeps what remains in the order sent |
| Hub.SubscribeOrderly | backend/internal/realtime/hub.go:78-103 | after a subscribe every registered topic has a subscriber and a running poller, no other poller runs, every live subscriber sits in the registered topic for its key |
| Hub.ReleaseOrderly | backend/internal/realtime/hub.go:105-121 | after a release likewise, and no topic reaches the leaver |
| Hub.LastLeaverStops | backend/internal/realtime/hub.go:111-117 | the poller stops exactly when the last subscriber leaves |
| Hub.LatestReplayed | backend/internal/realtime/hub.go:74-103 | whoever subscribes to a topic starts from the message pushed to it last, whoever came and went since; a new topic has none |
| Hub.Registry.Subscribe | backend/internal/realtime/hub.go:74-103 | creates or joins the topic and replays its last message |
| Hub.Registry.Release | backend/internal/realtime/hub.go:105-119 | leaves the topic with the queue still open and unreachable |
| Hub.Registry.Close | backend/internal/realtime/hub.go:120 | only an unreachable open queue is closed |
| Hub.Registry.Push | backend/internal/realtime/hub.go:132-141 | a poll from any topic, cancelled ones included, reaches exactly its live subscribers, whose queues are open, however each one's writer interleaves |
| Hub.Registry.LiveIsFed | backend/internal/realtime/hub.go:91-95 | a live subscriber is never left on a topic whose poller has stopped |
| Connection.Conn.AuthenticateLocked | backend/internal/mt5/conn.go:170-213 | the handshake changes session and counter as specified |
| Connection.Conn.ExecuteWithRetry | backend/internal/mt5/conn.go:471-499 | the attempt loop equals the specified attempts |
| Connection.Conn.Perform | backend/internal/mt5/conn.go:218-308 | one call equals the specified call, replay included |
| Connection.Conn.Ping | backend/internal/mt5/conn.go:407-465 | one keep-alive tick equals the specified tick |
| Connection.ReauthDelay | backend/internal/mt5/conn.go:68-78 | the doubling loop equals the capped doubling |
| Connection.SendsBounded | backend/internal/mt5/conn.go:218-308 | one call sends a request outside the allowlist at most once, an allowlisted read at most six times, nothing else, and at most two handshakes |
| Connection.DoRuns | backend/internal/mt5/conn.go:218-308 | the upstream's replies decide a call: a lost reply to a safe read is followed by another of three attempts while the caller waits; a 401 or 403 to one, not session-neutral, by a handshake, and that accepted by the request again, whose last reply alone then decides |
| Connection.RefusedTwice | backend/internal/mt5/conn.go:234-308 | so such a read ends in 401 or 403 only if the handshake in between was refused, or it was refused again as the last thing heard after a fresh one |
| Connection.PingDecided | backend/internal/mt5/conn.go:407-465 | a tick leaves a live session alone; it opens a lost one when the pacing allows and the handshake is accepted, and ends the pacing then |
| Connection.Outcome | backend/internal/mt5/conn.go:310-318 | session and failure counter after a call are determined by its result: refusals below 500 other than 401 and 403 keep the session, 401 and 403 end it except on session-neutral paths, other failures count towards the threshold |
| Connection.RunSafe | backend/internal/mt5/conn.go:467-470 | over any run of calls and ticks the counter stays below the threshold, and a request outside the allowlist goes out at most as often as it was asked for |
| Connection.OutageAttempts | backend/internal/mt5/conn.go:407-457 | while no handshake is accepted the ticks of a run, whatever calls come between, send handshakes at exactly the times that the pacing allows |
| Connection.AttemptsSpaced | backend/internal/mt5/conn.go:429-457 | those times are at least 80 % of the capped doubling delay apart |
| Connection.AttemptDue | backend/internal/mt5/conn.go:429-457 | and at most 120 % of it: a later tick does try |
| Connection.BackoffDoubles | backend/internal/mt5/conn.go:68-78 | the delay is five seconds at first and doubles with each failure up to two minutes |
| Connection.OutageSpaced | backend/internal/mt5/conn.go:407-457 | so are the handshakes that the ticks of a run send in an outage |
| TokenBucket.RedisLimiter.Allow | backend/internal/cache/redis.go:62-80 | decides and writes back as specified, touching no other key; tokens stay within the burst |
| TokenBucket.FullWhenIdle | backend/internal/cache/redis.go:77-78 | a bucket idle for its lifetime has refilled to the brim |
| TokenBucket.DroppingUnobservable | backend/internal/cache/redis.go:68-78 | letting idle buckets expire never changes a decision |
| TokenBucket.RateBound | backend/internal/cache/redis.go:60-80 | in any window at most the burst plus the rate times its length is granted |
| TokenBucket.SteadyGranted | backend/internal/cache/redis.go:60-80 | requests that keep to the rate are all granted once the first is |
| TokenBucket.BurstGranted | backend/internal/cache/redis.go:60-80 | of simultaneous requests on an unknown bucket exactly the burst is granted |
| TradeRequest.Normalize | backend/internal/domain/traderequest.go:62-167 | the map loops compute the specified rewrite for some order of both walks, settle any request whose keys differ by more than case, and send it with the lifetime it stands for |
| TradeRequest.TruncatesTowardZero | backend/internal/domain/traderequest.go:209-223 | a fractional number is cut off toward zero |
| TradeRequest.DecideFits | backend/internal/domain/traderequest.go:83-116 | the pair written has a positive deadline exactly for lifetimes that need one |
| TradeRequest.LifetimeSent | backend/internal/domain/traderequest.go:77-116 | what is sent: an explicit type, with the explicit deadline if it needs one and has one and as good-till-cancelled if it needs one and has none; else the type of the duration block, with the explicit deadline or else its own; else a bare deadline |
| TradeRequest.FieldsPass | backend/internal/domain/traderequest.go:138-163 | every plain field is sent under the dealer's name with the value it came with, the action as a string of the same figure or text |
| TradeRequest.DeterminedIff | backend/internal/domain/traderequest.go:71-148 | the result does not depend on the order of either walk if and only if no field that is taken out comes twice, the spellings of a plain field agree unless the dealer's own is among them, and every choice of spellings of TypeTime and TimeExpiration gives the same pair |
| TradeRequest.OrderIndependent | backend/internal/domain/traderequest.go:71-74 | in particular when no two keys differ only by case |
| TradeRequest.SpellingsCollide | backend/internal/domain/traderequest.go:138-148 | a volume in two casings with two values: the result is left to chance |
| TradeRequest.NormalizeSettles | backend/internal/domain/traderequest.go:62-167 | the result has only dealer spellings, no gateway fields, a string Action and a settled lifetime |
| TradeRequest.SettledFixed | backend/internal/domain/traderequest.go:62-167 | a settled request comes out as it went in |
| TradeRequest.Idempotent | backend/internal/domain/traderequest.go:58-62 | normalising twice is normalising once |
| TradeRequest.DeadlineMatchesLifetime | backend/internal/domain/traderequest.go:94-116 | TimeExpiration is positive exactly when TypeTime is 2 or 3 |
| TradeRequest.ShiftExpiration | backend/internal/domain/traderequest.go:233-255 | the deadline moves to the broker's clock as specified |
| TradeRequest.ShiftRoundTrip | backend/internal/transform/funcs.go:149-156 | shifting to the broker's clock and back restores a deadline if and only if there is no shift, none is set or the shifted one is after the epoch |
| TradeRequest.ActionQuoted | backend/internal/domain/traderequest.go:150-159 | quoting the action keeps its figure or text |
| TradeRequest.DurationRoundTrip | backend/internal/transform/enums.go:129-164 | showing a lifetime and submitting what was shown gives it back exactly for settled pairs other than end-of-day deadlines |
| TradeRequest.ShownComesBack | backend/internal/transform/enums.go:129-164 | and a request carrying what was shown as its only duration field is sent with it in exactly those cases |

## Left out

- Floating point: money is whole cents, prices, rates, tokens and numeric fields are exact reals; starting and reset balances are whole cents.
- Aliasing inside one account: positions and orders are values in the account's maps; accounts themselves are objects.
- The echoed fields, comments and JSON text of an answer: retcode, order, price and volume are kept. The two wire codes of each action are one action.
- Failed writes to the user store: the mirror always succeeds, as the law about it presumes.
- Price sources, their caches and spreads: each step reads one fixed table of quotes and one clock.
- Swap and commission charging: the engine never charges any; positions may carry some, and closing conserves it.
- Deposits and withdrawals of the client area beyond their broker leg: ownership, method, verification and deposit-limit checks, transaction records.
- The JSON file store, schema migration and the import of a state file. Rows keep an order's or deal's own login, which is the account's in every sound book.
- Table rows: positions and deals share the shape of order rows; columns their tables lack are constant.
- A start-up whose load fails: the broker would begin empty over full tables, which no statement here covers.
- The dirty flag and the timing of saves: any book may be copied and saved at any time, one save at a time.
- Requests without an idempotency key, which are submitted directly; the text of stored envelopes; how a dealer answer is read and worded.
- Redis itself: GET, SET NX, SET, compare-and-delete and the bucket script are atomic, and a key is unseen once its lifetime is past, as in the in-process store. A limiter that cannot reach Redis lets the request through.
- Chart windows with the live-edge sentinel, the database branch and fallback, daily and weekly buckets. One broker offset holds throughout one fetch, and volumes are unbounded.
- Which symbol the clock is read from, the unread-clock warning and single-flight refreshing.
- Hub.Registry.Subscribe: does not model bus mode, in which a failed bus subscription leaves a topic without a runner; topics are numbered records, and the adding of a subscriber and the replay of the last message are one step under the lock.
- Connection pooling, ping scheduling, log throttling and metrics; URL parsing, the challenge hash and response size limits are inputs. Integer widths of counters.
- Trade-request bodies as text: fields are parsed; lower-casing is a name of its own, so that Unicode case folding and numbers beyond 64 bits do not arise. Unparsable bodies pass through unchanged.
- HTTP handlers, authentication of users, paging and reports, and the front end: plumbing that would only add easy members.
