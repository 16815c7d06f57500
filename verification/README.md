# Trading signals: moving averages, crossover flags and the position ledger

A Dafny model of the signal and profit/loss engine of `main.py` in the
trading_signals repository. A symbol's daily closes pass through these stages:

1. **Rolling simple moving averages** (`Close.rolling(window).mean()`). There is
   one value per row. It is undefined (`None`, where pandas stores NaN) while
   fewer than `window` rows exist, and otherwise it is the exact mean of the
   trailing `window` closes.
2. **Signal columns.**
   - `Buy_Signal` is 1 where MA50 > MA500.
   - `Sell_Signal` is 1 where MA20 < MA200.
   - `Close_Buy_Position` is -1 where MA10 crosses strictly below MA20 between
     rows `i-1` and `i`.
   - `Close_Sell_Position` is 1 where MA5 crosses strictly below MA10.
   - A comparison with an undefined average is false.
3. **Position ledger** (`calculate_profit_loss`). The rows are read in order.
   A 100-unit position opens on a buy flag while the position list is empty.
   On a sell flag while a position is held (the `elif`), the first position is
   popped and `(sell - buy) * quantity` is added to the total. The result maps
   each symbol to its total.

Modules, one per file:
- `Wrappers` (`wrappers.dfy`): `Option`.
- `MovingAverage` (`moving_average.dfy`): the window sum and mean; the rolling
  average as a function and as the O(n) running-sum method.
- `Signals` (`signals.dfy`): the four flag columns and `shift(1)`.
- `Ledger` (`ledger.dfy`): the position-list loop.
- `Backtest` (`backtest.dfy`): the mapping over symbols.

Prices are exact `real`s, so a mean is exact and a strict comparison between
two means is exact too.

Each ledger operation is paired with a partner definition:
- The position-list loop (`Step`/`Run`, over a `Book` of positions and total)
  is shown to refine a two-state machine, `Flat | Holding(entry)`.
- It is shown equal to an independent index-search reference, `ReplayFrom`.
  The reference takes the first buy row, then the first sell row after it,
  then the next buy row after that sell, and so on. It records each completed
  round trip as a `Trade`.
- The realised total equals the sum of `(exit - entry) * 100` over those
  trades.

## Model

| member | source | states |
|---|---|---|
| MovingAverage.CalculateMovingAverage | main.py:17-18 | one value per close; entry `i` is undefined exactly when `i < window - 1`, and otherwise it is the sum of the `window` closes ending at `i` divided by `window` |
| MovingAverage.RollingMean | main.py:17-18 | the running-sum rolling computation (add the entering close, subtract the one leaving the window) yields exactly the window-mean sequence |
| MovingAverage.ShortSeriesUndefined | main.py:17-18 | a series shorter than the window has no defined average anywhere |
| MovingAverage.WindowOneIsIdentity | main.py:17-18 | a window of one reproduces every close exactly |
| MovingAverage.ConstantMean | main.py:17-18 | over a flat series every defined average equals the price |
| MovingAverage.RisingMeanOrder | main.py:23-24 | over a strictly rising series, of two windows ending at the same row the shorter has the strictly higher mean |
| Signals.Shift | main.py:41 | `shift(1)` has the same length, moves every value one row later and leaves row 0 undefined |
| Signals.GenerateBuySignals | main.py:22-26 | the buy column is 0/1; it is 1 at row `i` exactly when both MA50 and MA500 are defined there (`i >= 499`) and MA50 > MA500 |
| Signals.GenerateSellSignals | main.py:30-34 | the sell column is 0/1; it is 1 at row `i` exactly when both MA20 and MA200 are defined (`i >= 199`) and MA20 < MA200 |
| Signals.CloseBuyPositions | main.py:38-42 | the close-buy column is 0/-1; it is -1 exactly when MA10 < MA20 at `i` and MA10 > MA20 at `i - 1`, with all four averages defined |
| Signals.CloseSellPositions | main.py:46-50 | the close-sell column is 0/1; it is 1 exactly when MA5 < MA10 at `i` and MA5 > MA10 at `i - 1`, with all four averages defined |
| Signals.AnnotateSignals | main.py:148-151 | the four stages give one row per close, carrying that close; buy and sell are 0/1, close-buy 0/-1 and close-sell 0/1; buy is 1 exactly by the MA50/MA500 rule, sell exactly by the MA20/MA200 rule, close-buy is -1 exactly on a strict MA10-below-MA20 crossing and close-sell is 1 exactly on a strict MA5-below-MA10 crossing |
| Signals.NoEarlySignals | main.py:23-49 | no buy flag before row 499, no sell flag before row 199, and neither close flag at row 0 |
| Signals.ConstantSeriesIsQuiet | main.py:22-50 | a flat series raises none of the four flags on any row |
| Signals.RisingSeriesSignals | main.py:22-50 | a strictly rising series has a buy flag exactly from row 499 on, and no sell or close flag anywhere |
| Signals.RisingSeriesRows | main.py:145-151 | the annotated rows of a strictly rising series carry buy exactly from row 499 on and never sell |
| Ledger.Step | main.py:63-76 | one row keeps at most one open position of 100 units; while flat, a row without a buy flag changes nothing and no row moves the total; while holding, a row without a sell flag changes nothing (a buy is ignored) and no position is added; a position is added only on a buy flag and removed only on a sell flag |
| Ledger.Run | main.py:61-76 | the row loop, run over any number of rows from a book with at most one open position of 100 units, ends with at most one such position |
| Ledger.StepRefinesTransition | main.py:63-76 | each row moves the position list exactly as the Flat/Holding machine moves, and adds exactly what the machine realises on that row: `(close - entry) * 100` on a sell while holding, nothing otherwise |
| Ledger.ReplayTradesGenuine | main.py:61-76 | every trade of the index-search reference opens on a buy row and closes on a later sell row, at those rows' closes |
| Ledger.ReplayTradesChained | main.py:61-76 | each trade of the reference closes before the next one opens, so round trips never overlap |
| Ledger.RunMatchesReplay | main.py:57-79 | the loop from an empty list ends in the reference's final state, with the total equal to the sum over the reference's completed trades |
| Ledger.TotalProfitLoss | main.py:57-79 | the realised total of one symbol is the sum of `(exit - entry) * 100` over its completed buy-then-sell trades; a position still open at the end adds nothing |
| Ledger.NoBuyStaysFresh | main.py:63-67 | rows without a buy flag leave the ledger empty with a total of 0 |
| Ledger.SingleOpenPosition | main.py:63-70 | a first buy with no later sell leaves exactly that one position open and nothing realised, so later buys are ignored |
| Ledger.LateBuyNoSell | main.py:63-70 | rows whose buy flag is on exactly from row `b` on and never sell open one position at row `b`, or none if the rows stop first |
| Ledger.CloseFlagsIgnored | main.py:61-76 | rows that agree on Close, Buy_Signal and Sell_Signal give the same ledger result, so the two close columns are never read |
| Ledger.ProcessRow | main.py:63-76 | the loop body on the local position list and total moves the book as one ledger step does; from a list with at most one 100-unit position it keeps that bound, moves Flat/Holding as the two-state machine does, and adds exactly what the machine realises: `(close - entry) * 100` on a sell while holding, nothing otherwise |
| Ledger.CalculateSymbolProfitLoss | main.py:57-79 | the source's loop over a local position list returns the sum of the completed trades' profit |
| Backtest.CalculateProfitLoss | main.py:54-81 | one entry per symbol, and no other keys; each entry is that symbol's completed-trade sum; an empty series gives 0 |
| Backtest.RunBacktest | main.py:145-154 | signals and ledger per symbol: one entry per input symbol, each the completed-trade sum of its own annotated rows, 0 for an empty series |
| Backtest.SymbolsIndependent | main.py:56-58 | a symbol's total depends only on that symbol's rows |
| Backtest.FlatSeriesEarnsNothing | main.py:22-79 | over a flat price series the ledger is still empty with a total of 0 after every row, so it never opens a position and realises 0 |
| Backtest.RisingSeriesHoldsOne | main.py:22-79 | a strictly rising series opens exactly one position, at row 499 (the first row with a 500-row average), never closes it, and realises 0 |
| Backtest.BuyThenSellRealises | main.py:63-76 | a buy at a close of 10 followed by a sell at 15 realises `(15 - 10) * 100 = 500` |

## Left out

- Archive extraction, file discovery, CSV reading and writing (main.py:11-13, 121-123, 129-147): I/O with no logic. A symbol's input is modelled as its sequence of closes.
- `visualize_data` (main.py:85-110): chart rendering.
- `commit_changes` (main.py:114-118): version-control side effects.
- The `main()` driver (main.py:127-170). It recomputes the profit/loss mapping inside the per-file loop, and after the loop it prints from an undefined name (`stock_profit_loss`). `RunBacktest` models the intended single computation over all symbols. The last recomputation inside the loop sees every symbol, so it yields the same mapping.
- Floating-point rounding in pandas' rolling mean: averages are exact reals, and NaN is an explicit `None`.
- Missing-column errors: `close_buy_positions` reads `20_MA`, which only `generate_sell_signals` adds, and the ledger reads `Buy_Signal`/`Sell_Signal`. The model always runs the stages in the driver's order, so those `KeyError`s cannot arise.
- MovingAverage.CalculateMovingAverage: requires `window >= 1`. In pandas a negative window raises, and a window of 0 gives all NaN. Neither case is reachable here. `calculate_moving_average` (main.py:17-18) has no caller, and every inline `rolling` call (main.py:23, 24, 31, 32, 39, 47) passes a fixed positive window.
- Close and signal values are taken as numbers. A NaN close, which pandas would propagate into every window that contains it, is not modelled.
