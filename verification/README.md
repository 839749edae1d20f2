# keel_trader: a verified model

This project models the stateful kernels of keel_trader, a backtester with a guarded paper trader, and
proves properties of them for all inputs and all runs. `dafny verify dfyconfig.toml` checks everything.

## What is modelled

**The fill engine and the episode machine** (`sim/src/trading_env.c`). `Engine.dfy` defines one bar's trading on a
single price row: valuation, borrow fees, the in-sim guard, limit fills, opening and closing, action decoding, the
forced close. `Episode.dfy` adds time: reset, observation, the step with its terminal branch and auto-reset, runs of
steps, and a policy in closed loop with its observations. `TradingEnv.dfy` is the same machine as a class whose methods
update the account, the log and the observation buffer in place; each method is proved to do what the functions say.
The whole-run theorems are in `NoLookAhead.dfy` (two runs in two markets), `Slippage.dfy` (two runs at two slippages),
`ConstantMarket.dfy`, `Solvency.dfy`, `HoldingTime.dfy`, `Windows.dfy` and `EarlyEnd.dfy`; `Orders.dfy` and `Actions.dfy`
hold what one order and one action number mean, `Observation.dfy`, `Accounting.dfy` and `TradingRules.dfy` what is shown,
charged, counted and allowed, in terms of their own, and `Scenario.dfy` the small markets of the concrete runs.

**The account lock** (`core/alpaca_account_lock.py`). `AccountLock.dfy` is an interleaving model: any number of
processes and threads, one mutex and one registry per process, an operating-system lock owned by an open file, an
acquire of five steps, a release of four of which two run without the mutex, and crashes at any point. Its invariant
is in `AccountLockInvariant.dfy`, what follows from it in `SingleWriter.dfy`.

**Sizing** (`models/xgb/strategy.py`), **the promotion gate** (`research/eval.py`), **the death-spiral guard and the
broker** (`core/alpaca_singleton.py`, `core/broker.py`), **technical features** (`forecast/technical.py`), **the paper
trader** (`core/kraken_paper.py`), **the binary market file** (`sim/binpack.py` and its loader), **paging, merging and
grid alignment** (`sim/kraken_data.py`) and **advantage estimation** (`models/rl/policy.py`) each have a file of their
own; sizing has three (`WaterFilling.dfy`, `Sizer.dfy`, `Strategy.dfy`), and `PaperLedger.dfy`, `LostFills.dfy` and
`PaperFills.dfy` hold the theorems about orders, steps and whole runs of the paper trader. `FeatureRows.dfy` says what
each feature is, and `Promotion.dfy` what the gate's verdict says about the episodes behind its table.

Floats are exact reals. Dictionaries are maps, with a sequence of keys where insertion order matters. Exceptions are the
`Err` case of a `Result`. The clock, the random generator's raw words, the exchange, the score function, the policy and
the square root are parameters, so each theorem holds for every one of them.

## What the proofs found

* A borrow fee is a one-bar look-ahead: it is charged at the close of the bar whose open the policy has yet to trade.
  It is seen exactly by accounts that pay it, shorts and levered longs (`NoLookAhead.LookAheadIsTheFee`,
  `NoLookAhead.ShortsSeeTheNewClose`). Apart from that fee there is none.
* An action number outside the action space freezes a position's age, so the hold limit bounds valid actions, not steps
  (`HoldingTime.HoldCountsActions`, `HoldingTime.PositionOutlivesTheLimit`).
* The early-exit rule counts its progress one step ahead: the step counter has already moved when
  `sim/src/trading_env.c:302` adds one (`EarlyEnd.EarlyExitByStep`, `EarlyEnd.EndsBeforeItsFraction`).
* A symbol picked twice is funded twice, so the exposure limit can be overrun
  (`Sizer.ExposureLimitNeedsDistinctSymbols`, `Sizer.RepeatedPicksOverrun`). Inside the 1e-12 tolerance a name may exceed
  the cap and a lower volatility may earn up to 1e-12 less (`Sizer.ToleranceIsReal`, `Sizer.LowerVolatilityEarnsMore`).
* With an even number of windows, which 20 is, a cell that was never given up on can still miss the target, and the
  bail-out can come late (`Gate.FinishedEvenCellByCount`, `Gate.BailIsExact`, `Gate.BailMayBeLate`).
* A buy is lost from the guard's memory when the clock is set back after a pruning (`BuyMemory.BackwardClockForgets`).
* A step of the paper trader that raises after an order was executed leaves orders without ledger entries
  (`LostFills.StepLosesFills`, `LostFills.RefusalLosesFills`).
* Seventy-two bars are one too few for the technical row (`Technical.SeventyTwoBarsNeedNoTrend`).
* The market loader takes the end of a file without cells for a mask, and refuses every file with cells that this
  writer produces at a version of 2 or more (`Binpack.SpuriousMaskIffEmpty`, `Binpack.LoaderAccepts`). It checks no array
  against the file, and reads past the end of a file written with no features (`Binpack.WrittenFileInBounds`,
  `Binpack.FeaturelessIsOutOfBounds`).
* The aligned grid keeps its promise exactly when every symbol has a bar at its start and its range is whole steps: else
  a symbol starts with zero prices (`KrakenData.ColumnIsCovered`, `KrakenData.HoleAtTheStart`) or the grid ends after the
  last common bar (`KrakenData.GridSpans`, `KrakenData.GridPassesTheLastBar`).
* A window evaluated at a lag of -3 or less can read an empty log (`Windows.LoopReachesTheEnd`,
  `Windows.ShortLoopReadsNothing`).
* After a negative equity reading the logged drawdown is the fall from the peak, which need not be the deepest
  (`Solvency.DrawdownIsWorstFall`, `Solvency.ShortsOverrunTheDrawdown`).
* Documentation that the code no longer follows: `README.md:23-24` names a 27% target and slippages of 0, 5, 10 and
  20 bps, the gate uses 10% and 0, 10, 20 and 30 (`research/eval.py:44-52`). The model has both as parameters.

## Model

| member | source | states |
|---|---|---|
| Engine.Close | sim/src/trading_env.c:335-381 | Closing at the open: a position that closes leaves a flat account; one that does not (flat already, or refused by the guard) changes nothing but its age. The account stays well formed. |
| Engine.SymOfIsModulo | sim/src/trading_env.c:337-345 | The symbol of a position code, which the source takes modulo the number of symbols. |
| Engine.Decode | sim/src/trading_env.c:594-669 | A number is going flat exactly at 0 and invalid exactly outside 0 to twice the side block; every other number names a symbol, an allocation bin and a level bin in range. |
| Engine.SplitIndex | sim/src/trading_env.c:617-620 | The three parts split off an index are inside their ranges. |
| Actions.DecodeOfEncode | sim/src/keel_sim.c:128-132 | Every order in range has a number below the derived action count, and decoding it gives the order back. |
| Actions.EncodeOfDecode | sim/src/trading_env.c:594-620 | A number stands for an order in range exactly below the action count, and encoding that order gives the number back: the numbering is a bijection. |
| Orders.FillIsInsideTheBar | sim/src/trading_env.c:383-413 | A limit fill lies inside the bar and is never better than the limit, for buys and sells. |
| Orders.FillsExactly | sim/src/trading_env.c:383-413 | On the bar and in basis points, for any target: a buy fills exactly when the bar goes the buffer below the target, or to zero, and reaches the target raised by the slippage, and fills there; a sell is the mirror image. |
| Orders.TouchIsNoFill | sim/src/trading_env.c:393-401 | Under a positive buffer a bar that only touches a positive target fills nothing at it. |
| Orders.ShallowDip | sim/src/trading_env.c:393-408 | A dip of two basis points is no fill at a buffer of five, and one at 100.10 without it. |
| Orders.StricterFillsLess | sim/src/trading_env.c:383-413 | A larger buffer or slippage fills no order the smaller ones would not, and never at a better price. |
| Orders.AllocationLadder | sim/src/trading_env.c:415-424 | Allocation bins are ordered and the last one is the whole of the cash. |
| Orders.AllocationIsEven | sim/src/trading_env.c:415-424 | A bin is one of as many equal parts of the cash, but at least a hundredth. |
| Orders.LevelLadder | sim/src/trading_env.c:426-434 | Level bins run from minus to plus the largest offset, in order, mirrored about zero. |
| Orders.LevelsAreEven | sim/src/trading_env.c:426-434 | Level bins are evenly spaced between the extremes. |
| Orders.OpenTerms | sim/src/trading_env.c:436-500 | What an open leaves: the open moved by level and slippage as the entry, the levered share of the cash spent with the fee on top of the price, for a short the proceeds less the fee; nothing else of the account moves. |
| Orders.OpensExactly | sim/src/trading_env.c:436-500 | An order opens exactly when open, cash and limit are positive and the limit fills. |
| Orders.LotteryByWord | sim/src/trading_env.c:28-31 | Below probability one exactly the words below one bound fill: those whose upper 24 bits are at most the probability times 2^24. |
| Accounting.YearOfFees | sim/src/trading_env.c:247-273 | A year of fees: a short pays the rate on its value, a levered long on the borrowed part of it, nobody else anything. |
| Accounting.GuardByAge | sim/src/trading_env.c:313-331 | A long sale is refused exactly when the guard is on and the price is below the entry less the tolerance of the position's age: base before it is stale, overnight from then on, none where that is not positive. |
| Accounting.CloseTerms | sim/src/trading_env.c:335-381 | A close that is not refused leaves no position, one trade more, and cash moved by the shares at the open less, or for a short plus, fee and slippage. |
| Accounting.TradeWins | sim/src/trading_env.c:368-375 | A bar counts a win exactly when it closes the position it started with at a gain, above the entry for a long and below it for a short. |
| Accounting.FinalEquityIs | sim/src/trading_env.c:792-806 | What an episode ends with: cash; cash after the final close with its costs; or cash and shares at the close where the guard refuses. |
| Accounting.EpisodeLog | sim/src/trading_env.c:806-831 | The log of a first episode: return on ten thousand, drawdown, trades with the final close, the share of them that gained over the whole run, and steps per trade; nothing of the last two without trades. |
| TradingRules.ClosedMarketFreezes | sim/src/trading_env.c:560-669 | A position in a closed market stays as it is whatever the action, and ages exactly for a number of the action space. |
| TradingRules.RefusalHolds | sim/src/trading_env.c:313-350 | A position the guard refuses to sell at any age survives the bar. |
| TradingRules.GoingFlat | sim/src/trading_env.c:600-612 | Going flat closes what is held in an open market unless refused, and leaves a flat account alone. |
| TradingRules.AskingForTheSame | sim/src/trading_env.c:613-669 | Asking for the position already held only ages it. |
| TradingRules.ClosedTargetIsLeft | sim/src/trading_env.c:613-669 | Asking for a symbol whose market is closed changes nothing but the age of what is held. |
| TradingRules.Switching | sim/src/trading_env.c:613-669 | Asking for another position closes the one held, unless refused, and then opens exactly when the lottery lets it. |
| TradingRules.LimitComesFirst | sim/src/trading_env.c:563-573 | At the limit the position is closed before the action is looked at. |
| TradingRules.SettleReads | sim/src/trading_env.c:671-684 | Settling moves one bar, takes the fee out of the cash and nothing else, and reads the settled account's worth at the new closes. |
| TradingEnv.TradingEnv.constructor | sim/src/keel_sim.c:57-142 | A finalized environment has a buffer of S*F+5+S numbers and stands in the reset state. |
| TradingEnv.TradingEnv.ResetAgentState | sim/src/trading_env.c:506-537 | The account becomes the reset account at the forced, clamped or drawn offset; the log and the flag are untouched. |
| TradingEnv.TradingEnv.CReset | sim/src/trading_env.c:539-546 | The environment is in the reset state with its log kept. |
| TradingEnv.TradingEnv.FillObservations | sim/src/trading_env.c:160-220 | The buffer becomes exactly the observation of the account, and shows it number by number: the feature row as many bars back as the decision lag says, at least one; cash, signed position value and gain at that row's closes; age and step; the signed one-hot position. |
| TradingEnv.TradingEnv.ComputeEquity | sim/src/trading_env.c:226-245 | Equity at the closes of a row. |
| TradingEnv.TradingEnv.ClosePosition | sim/src/trading_env.c:335-381 | The in-place close does what the function on values says, and reports whether it closed. |
| TradingEnv.TradingEnv.OpenPosition | sim/src/trading_env.c:436-500 | The in-place opens, long and short, do what the functions on values say. |
| TradingEnv.TradingEnv.TradePhase | sim/src/trading_env.c:560-669 | Forced close, decoding and action, with the count of trade events. |
| TradingEnv.TradingEnv.SettlePhase | sim/src/trading_env.c:671-707 | Time moves one bar: valuation, borrow fee, peak and drawdown. |
| TradingEnv.TradingEnv.FinishPhase | sim/src/trading_env.c:782-838 | The terminal branch: final close or mark-to-market, log, auto-reset. |
| TradingEnv.TradingEnv.CStep | sim/src/trading_env.c:548-847 | The whole in-place step equals the step function on the environment state: account, log, terminal flag and observation buffer. |
| Episode.Observe | sim/src/trading_env.c:160-220 | An observation always has S*F+5+S numbers. |
| Observation.ObservationShows | sim/src/trading_env.c:160-220 | Every account's observation, number by number and without the functions that compute it: the row max(1, lag) bars back (the first row before that), cash, the value of a long or minus that of a short, gains with their sign, age and step over the horizon, 1 at a long and -1 at a short. |
| Observation.ShowsAllOfIt | sim/src/trading_env.c:160-220 | That description leaves nothing open: two buffers that meet it for one account are equal. |
| Observation.RunsShow | sim/src/trading_env.c:548-847 | Over any run, through any number of episodes, the observation shown describes the account as it stands. |
| Episode.TradeKeepsTime | sim/src/trading_env.c:560-669 | Trading moves neither the clock nor the peak, drawdown or initial equity. |
| Episode.UnbrokenLog | sim/src/trading_env.c:776-839 | Over any run the log changes only when an episode ends. |
| Episode.ClockOfPlay | sim/src/trading_env.c:553-561 | Along an unterminated run of any policy the account stands at offset plus steps, never clamped. |
| NoLookAhead.NoLookAhead | sim/src/trading_env.c:160-220 | With no borrow rate: two markets that agree on price rows before t and on feature rows up to max(1, lag) bars before t give any policy the same observation and action at t, after any unterminated run, under any mask, guard and fill lottery. |
| NoLookAhead.LookAheadIsTheFee | sim/src/trading_env.c:247-273 | After any unterminated run in any market, what the policy is shown at bar t is the same in every market that agrees before t if and only if the account, once it has traded, does not pay: no positive borrow rate, no position, or a long without leverage. All of that is known before bar t. |
| NoLookAhead.RunsAgree | sim/src/trading_env.c:548-674 | Before the last bar the two runs are in the same state, statistics included. |
| NoLookAhead.FeeReadsTheRow | sim/src/trading_env.c:247-273 | The fee charged to an account depends on the row it is charged at exactly when the rate is positive and the account is short, or long with leverage above 1; the default of 8760 periods included. |
| NoLookAhead.ShortsSeeTheNewClose | sim/src/trading_env.c:671-707 | Two markets with equal rows before bar 1 and one policy that shorts: both runs go on, and the observations at bar 1 differ by the fee, 100 against 110. |
| Slippage.LowerSlippageDominates | sim/src/trading_env.c:335-467 | For one long-only unlevered action sequence, as long as no order fills at the lower slippage alone (orders reached at neither slippage included): until either run ends the lower-slippage run has at least as much cash and quantity, and at least as much equity at any row of positive closes. |
| Slippage.LowerSlippageOutlives | sim/src/trading_env.c:671-839 | Under the same condition the lower-slippage run lives at least as long (early exit off), and when both end together it logs at least the return. |
| Slippage.DominanceIsOpeningTogether | sim/src/trading_env.c:335-467 | Over any long-only run in which neither has ended, the lower-slippage run dominates after every step if and only if no order has filled in it alone. |
| Slippage.TradeKeepsDominance | sim/src/trading_env.c:560-669 | One bar keeps the dominance if and only if an open that fills at the lower slippage also fills at the higher one; the converse, that one filled at the higher slippage fills at the lower, always holds. |
| Slippage.FillMonotone | sim/src/trading_env.c:383-413 | A buy that fills at the higher slippage fills at the lower, no dearer. |
| ConstantMarket.NoProfitFromNothing | sim/src/trading_env.c:548-839 | In a market that never moves, over any run through any number of episodes, long, short or levered, at any offset: equity never rises within an episode and never exceeds the start, and the logged return is at most zero. |
| ConstantMarket.StepNeverGains | sim/src/trading_env.c:548-839 | One step from any account: equity at the frozen prices does not rise and an ending episode logs no gain. |
| ConstantMarket.RoundTripCost | sim/src/keel_sim.c:184-218 | Opening and closing a long at one open loses exactly (2f+2s+fs)/((1+f)(1+s)) of the budget. |
| ConstantMarket.RoundTripBound | sim/src/keel_sim.c:184-218 | That fraction is between 0 and 2(f+s). |
| ConstantMarket.ShortRoundTripCost | sim/src/trading_env.c:469-500 | A short opened and bought back at one open loses exactly (2f+2s-fs)/((1+f)(1-s)) of the budget. |
| ConstantMarket.GoldenCells | tests/test_sim_binding.py:72-88 | The golden bar: entries of 100, 100.05 and 100.20 and losses of 19.98, 29.96 and 59.84 to the cent. |
| Solvency.LongsStaySolvent | sim/src/trading_env.c:436-467 | Over long-only runs with leverage at most 1 and fee plus slippage at most 1, through any number of episodes, cash and every equity reading are non-negative. |
| Solvency.DrawdownIsWorstFall | sim/src/trading_env.c:697-707 | For any prices, costs and actions, shorts and leverage included: the one-pass drawdown is the largest relative fall over all earlier-later pairs of readings if and only if the last reading is not negative or nothing moved before it. It lies in [0,1] while the last reading is not negative, is the fall from the peak and above 1 when it is, and is what the log receives. |
| Solvency.ShortsOverrunTheDrawdown | sim/src/trading_env.c:697-707 | A short whose log reports a drawdown of 3 although the fall from its second reading is deeper. |
| Solvency.LongsDrawdownIsWorstFall | sim/src/trading_env.c:697-707 | Over unlevered long-only runs it always is the largest fall, between 0 and 1. |
| Solvency.RunTracks | sim/src/trading_env.c:697-707 | While an episode goes on, at any prices, costs and actions, peak and drawdown are those of the whole path and every reading is positive. |
| Solvency.TrackStep | sim/src/trading_env.c:697-707 | One more reading keeps the running peak and drawdown equal to their definitions over the whole path. |
| HoldingTime.TradesMatchOpens | sim/src/trading_env.c:335-381 | Within an episode opens minus counted trades is 1 exactly when a position is held and 0 otherwise, under any mask, guard and lottery. |
| HoldingTime.LogCountsOpens | sim/src/trading_env.c:782-838 | Under any mask, guard and lottery an ending episode logs the number of positions it opened, less one exactly when a position is held at the end and the guard refuses its final close. |
| HoldingTime.HoldCountsActions | sim/src/trading_env.c:600-668 | For any actions, mask, guard and limit the age of a held position is the number of valid actions since its entry plus the number of forced closes the guard has refused since. |
| HoldingTime.HoldWithinLimit | sim/src/trading_env.c:563-573 | Where no bar starts with the position at the limit and stuck, no forced close is refused and the age never exceeds the limit. |
| HoldingTime.HoldCountsSteps | sim/src/trading_env.c:600-668 | For any actions, valid or not: the age of a held position never exceeds the limit, and equals the number of steps since its entry if and only if every action since was valid. Needs only that no bar starts with the position at the limit and stuck. |
| HoldingTime.ClosedByLimit | sim/src/trading_env.c:563-573 | A position sees at most M valid actions after its entry, and the open of a bar closes it by force exactly when it has seen M; with valid actions only that is step e+M+1. |
| HoldingTime.LimitClosesUnlessStuck | sim/src/trading_env.c:563-573 | At the limit the open of the bar closes the position if and only if its market is open and the guard does not refuse. |
| HoldingTime.InvalidActionStopsTheClock | sim/src/trading_env.c:600-669 | An action number outside the action space leaves a position below the limit and its age exactly as they were. |
| HoldingTime.PositionOutlivesTheLimit | sim/src/trading_env.c:594-669 | For every limit M a run with open markets and no guard that holds one position for more than M steps, its age still zero. |
| Windows.FastRandIntInRange | sim/src/trading_env.c:32-36 | The multiply-shift draw is below its bound for every 64-bit word. |
| Windows.FastRandIntIsScaled | sim/src/trading_env.c:32-36 | The draw is the word's upper half, as a fraction of 2^32, times the bound, rounded down. |
| Windows.EveryDrawHappens | sim/src/trading_env.c:32-36 | Every number below a bound of at most 2^32 is drawn by some word. |
| Windows.RandFloatInRange | sim/src/trading_env.c:28-31 | The fill lottery draws from [0,1). |
| Windows.ResetOffsetInRange | sim/src/trading_env.c:506-520 | Whenever the data has room for an episode every reset lands on an offset that leaves room for it. |
| Windows.ResetGoes | sim/src/trading_env.c:506-520 | Each case of the reset: the forced offset, the last that fits when that is past it, any that fits, or the start. |
| Windows.EveryOffsetIsReached | sim/src/trading_env.c:516-520 | Without a forced offset every offset that fits is reached by some word. |
| Windows.GenerateOffsets | research/eval.py:116-130 | Fails exactly when a window does not fit; otherwise every offset lies in the requested range, leaves room for a window, and is the range's start plus the draw when that is inside. |
| Windows.OffsetRangeIs | research/eval.py:121-126 | The range is the requested fractions of the last offset, rounded down, or all of it when they leave none. |
| Windows.GeneratedOffsetUnclamped | sim/src/trading_env.c:506-515 | A generated offset survives reset unclamped. |
| Windows.EpisodeLength | sim/src/trading_env.c:776-780 | Every row an episode touches is offset plus step, inside the data, and the episode ends at exactly the window length unless bankrupt or cut by the early-exit rule. |
| EarlyEnd.EarlyExitByStep | sim/src/trading_env.c:275-307 | After k steps the early-exit rule fires exactly when it is on, applies to the horizon, the return is below the drawdown, the fraction is at most 1 and k+1 steps are that fraction of the horizon. |
| EarlyEnd.EarlyEndsAreByTheRule | sim/src/trading_env.c:762-780 | Short of its horizon and of the end of its data, the episode of any policy ends at step k exactly by ruin or by that rule. |
| EarlyEnd.EndsBeforeItsFraction | sim/src/trading_env.c:302 | A run that ends after one step of ten although the fraction given is a fifth. |
| Windows.RunWindow | research/eval.py:133-165 | The window runner, on the in-place environment, for any policy and any draws, the offset clamped or not. Its monthly return times the window's bars is 730 times the total return; total return, drawdown and trades are those of the first episode, on ten thousand and with the final close, where that ends within the loop's steps, and nothing where not; the log read holds that one episode or nothing. |
| Windows.WindowReports | research/eval.py:133-165 | The same of the window as a value, which is what the gate's table holds. |
| Windows.LoopReachesTheEnd | research/eval.py:154 | The first episode ends within the loop's steps if and only if the lag is at least -2, or ruin, the early-exit rule or the end of the data cuts the episode within them. |
| Windows.ShortLoopReadsNothing | research/eval.py:153-165 | At every lag of -3 or less a market that stands still and a policy that stays flat give an empty log. |
| Windows.EndedLog | sim/src/trading_env.c:821-831 | The log of a first ended episode counts one episode. |
| SingleWriter.OneWriterPerPath | core/alpaca_account_lock.py:125-188 | In every interleaving of acquires, phased releases and crashes over any number of processes and threads, two live lock objects on one path are the same object. |
| SingleWriter.LiveLocksHold | core/alpaca_account_lock.py:114-188 | Every unreleased lock object of a living process owns its path in the operating system, through its own open file, and is the registered one. |
| SingleWriter.OnlyItsOwnerEndsALock | core/alpaca_account_lock.py:37-52 | A live lock ends exactly by its own release or its process crashing; every other step, a late phase of another release included, leaves it live, registered and owning its path. |
| SingleWriter.AcquiredMeansSoleWriter | core/alpaca_account_lock.py:140-188 | The step that answers an acquire with a lock gives a live lock of the caller process for the path and service asked for, and no other live lock exists on that path. |
| SingleWriter.AcquireIsIdempotent | core/alpaca_account_lock.py:141-149 | A process that holds the path gets the same lock back for the same service, is refused for another, and nothing else changes. |
| SingleWriter.AcquireIsRefused | core/alpaca_account_lock.py:151-170 | A process that does not hold an owned path is refused, and locks, open files and owners are as before. |
| SingleWriter.AcquireSucceeds | core/alpaca_account_lock.py:150-188 | On a free path an uninterrupted acquire creates one live lock that owns it, changing no other lock or owner. |
| SingleWriter.FreePathIsAcquired | core/alpaca_account_lock.py:37-52 | After any run, once no lock on a path is live, released or crashed alike, the next acquire of it succeeds if and only if no thread is about to register or to unlock the path, and is refused otherwise; threads busy elsewhere do not matter. No path is ever lost. |
| SingleWriter.StepKeepsExplained | core/alpaca_account_lock.py:153-186 | An owned path always belongs to a live lock, a thread about to register, or a thread about to unlock. |
| AccountLockInvariant.StepKeepsInv | core/alpaca_account_lock.py:37-188 | Every step keeps the invariant over locks, files, owners, registries, mutexes and threads. |
| AccountLockInvariant.RegistryShowsNone | core/alpaca_account_lock.py:114-122 | A registry without a live entry for a path means that no lock object of the process on it is live. |
| Sizer.SizerIsWaterFilling | models/xgb/strategy.py:62-106 | There is one positive level at which every symbol stands: its weight is the level over its floored volatility, or the cap when that exceeds the cap by more than 1e-12; every symbol gets a weight and the whole exposure is given out unless even all caps fall short. |
| Sizer.EqualRisk | models/xgb/strategy.py:62-106 | Two symbols not at the cap carry the same risk, weight times floored volatility; of one at the cap and one below it the former is less volatile. |
| Sizer.EqualRiskOfPicks | models/xgb/strategy.py:62-106 | The same of the positions of distinct picks, by the picks' own volatilities. |
| WaterFilling.FillSettles | models/xgb/strategy.py:86-103 | From any round reached, the rounds end at a level above every level before; what is given out is the whole budget unless all names are capped below it. |
| WaterFilling.RoundLevel | models/xgb/strategy.py:87-94 | In every round that is reached budget and raw weight are left, and its level is above the level of the round before. |
| WaterFilling.Fewer | models/xgb/strategy.py:101-103 | A round that caps somebody leaves strictly fewer names. |
| Sizer.GrossExposureIsMet | models/xgb/strategy.py:86-103 | The total is at most the exposure, equals it whenever n caps reach it, and is n caps when even n caps with tolerance do not. |
| Sizer.LowerVolatilityEarnsMore | models/xgb/strategy.py:64-68 | A weight is positive and exceeds the cap by at most the tolerance; a larger raw weight never earns less, up to the same tolerance, and not at all below the cap. |
| Sizer.ToleranceIsReal | models/xgb/strategy.py:92-99 | Two names of which the more volatile ends half the tolerance above the cap and above the other. |
| Sizer.ExposureLimitNeedsDistinctSymbols | models/xgb/strategy.py:105-106 | What is deployed respects the exposure exactly when no symbol is picked twice, or every name got the cap and the picks at the cap fit. So picks that do not fit at the cap must be distinct, and where the names at the cap plus tolerance fall short of the exposure every name gets the cap and the limit holds exactly when the picks at the cap fit. |
| Sizer.ExposureLimitBeforehand | models/xgb/strategy.py:86-106 | For a cap above the tolerance times the number of picks, what is deployed respects the exposure exactly for distinct symbols or when the picks at the cap fit. |
| Sizer.RepeatedPicksOverrun | models/xgb/strategy.py:105-106 | Three picks of one symbol deploy 1.02 under the default limits. |
| WaterFilling.Recycle | models/xgb/strategy.py:79-103 | The allocation loop computes the recursive rounds. |
| Sizer.InverseVolWeights | models/xgb/strategy.py:62-106 | The sizing loop over its dictionaries, its division by zero included, computes the positions of the picks with a positive weight, whose weights `EqualRisk` and `SizerIsWaterFilling` describe. |
| Sizer.NamesAreDistinct | models/xgb/strategy.py:74 | The keys of the raw-weight dictionary list each symbol once, however often it is picked. |
| Sizer.PositionsMatchPicks | models/xgb/strategy.py:105-106 | Every pick gets a position, in pick order, with its symbol weight. |
| Strategy.PicksAreTheTop | models/xgb/strategy.py:55-59 | Picks and rest are the signals as multisets, the picks are in rank order, there are as many as asked for or available, and each ranks before everything left out. |
| Strategy.PicksScoreHighest | models/xgb/strategy.py:55-59 | No pick scores below anything left out, picks come by falling score, and of equal scores the symbol earlier in code-point order is picked. |
| Strategy.RankedIsSorted | models/xgb/strategy.py:58 | The ranking is sorted by descending score, then symbol, and is a permutation. |
| Strategy.FilterKeepsTheEligible | models/xgb/strategy.py:48-52 | The filter keeps exactly the signals at or above the threshold and above zero. |
| Strategy.DecisionIsSound | models/xgb/strategy.py:109-114 | End to end on distinct symbols: the positions are the top eligible signals, best first, each funded within the cap, together within the exposure limit. |
| Strategy.Decide | models/xgb/strategy.py:109-114 | The pipeline method is filter, pick and size in that order, with the division by zero as its only failure. |
| Gate.MedianByCount | research/eval.py:168-170 | Fewer windows at the target than needed keep the median below it; for an odd number of windows the median reaches it exactly when enough windows do. |
| Gate.EvenMedianByCount | research/eval.py:168-170 | For an even number the median reaches the target exactly when more than half of the windows do, or half of them do and the greatest value below it plus the least at or above it is at least twice the target. |
| Gate.MiddleIsNearest | research/eval.py:168-170 | When exactly half reach the target, the two middle values are the nearest below and at or above it. |
| Gate.RunCell | research/eval.py:173-209 | A cell runs up to its first window with a reason to stop, drawdown before hopelessness, or through all, and takes the median of what ran. |
| Gate.CellIsUnique | research/eval.py:173-209 | That description determines the cell result. |
| Gate.BailIsSound | research/eval.py:196-203 | A cell that bails as unreachable is right: every completion of the remaining windows has its median below the target. |
| Gate.BailIsExact | research/eval.py:196-203 | After any window some completion reaches the target if and only if the rule has not given up and is not late; it can be late only for an even number of windows, when all the remaining ones are needed and the nearest values seen already average below the target. |
| Gate.BailMayBeLate | research/eval.py:196-203 | For every target a row of four that is lost after three windows and not given up on. |
| Gate.FinishedOddCellPasses | research/eval.py:182-209 | With an odd number of windows a cell that finishes under fail-fast has reached the target. |
| Gate.FinishedEvenCellByCount | research/eval.py:182-209 | With an even number it has exactly when more than half of the windows did, or half of them did and the nearest below and above average to the target. |
| Gate.FinishedEvenCellMayMiss | research/eval.py:182-209 | With two windows it may miss: a concrete row for every target. |
| Gate.CellVerdictAgrees | research/eval.py:190-209 | A cell passes with fail-fast exactly when it passes without and no window breaches the drawdown limit. |
| Gate.FailFastKeepsTheVerdict | research/eval.py:235-259 | Promotion with fail-fast is promotion without it and no drawdown breach anywhere in the table. |
| Gate.WorstMedianIsTheLeast | research/eval.py:229-262 | The reported worst median is the least median of the cells that ran; on promotion those are all levels and it is at least the target. |
| Gate.PromoteIsAllPass | research/eval.py:235-255 | The gate promotes exactly when every level passes. |
| Gate.Evaluate | research/eval.py:229-265 | The sweep method computes the verdict level by level, stopping at the first failing one. |
| Promotion.PromotionByPlays | research/eval.py:215-265 | Promotion read off the plays: at every slippage more than half of the windows, or half with the nearest two averaging to it, gain at least the target on their ten thousand and per 730 bars, and under fail-fast no window's drawdown is beyond the limit. |
| Promotion.RowIsGained | research/eval.py:133-165 | Each entry of the table is the gain and drawdown of its window's first episode, or nothing, scaled to 730 bars. |
| BuyMemory.BuyMemory.Prune | core/alpaca_singleton.py:328-337 | The pruning loop keeps exactly the records no older than the window. |
| BuyMemory.BuyMemory.RecordBuyPrice | core/alpaca_singleton.py:340-354 | The new map: pruned, with this buy under the upper-case symbol; unchanged for an empty symbol or a price not positive. |
| BuyMemory.BuyMemory.GuardSell | core/alpaca_singleton.py:364-472 | Refuses exactly a looked-at sell below the floor of a remembered buy inside the window, and prunes the map exactly when it looks. |
| BuyMemory.BuyMemory.ForgetBuy | core/alpaca_singleton.py:481-486 | Removes one symbol. |
| BuyMemory.BuyMemory.ForgetAllBuys | core/alpaca_singleton.py:489-492 | Removes all. |
| BuyMemory.StripCuts | core/broker.py:114-120 | A side is read without the white space at its ends, and with nothing else cut. |
| BuyMemory.WideningNeverTightens | core/alpaca_singleton.py:447-458 | Volatility only raises the tolerance: a sell refused with it is refused without it. |
| BuyMemory.FloorIsTheLower | core/alpaca_singleton.py:437-460 | The floor is the lower of the base tolerance and the given multiple of the true range below the buy. |
| BuyMemory.MemoryIsTheLatestBuy | core/alpaca_singleton.py:328-354 | For every history and any clock the pruned map holds the latest buy of a symbol, or nothing exactly when some pruning since found it too old; an older buy never resurfaces. |
| BuyMemory.PruningIsLossless | core/alpaca_singleton.py:420-430 | With a clock that never runs backwards a lookup after pruning is the latest in-window buy of the unpruned history. |
| BuyMemory.BackwardClockForgets | core/alpaca_singleton.py:328-337 | With a clock set back it is not: a concrete history for every window. |
| Broker.Broker.SubmitOrder | core/broker.py:114-143 | Validate, guard, execute, record: the new memory and executed orders, success exactly for a valid buy or a valid sell that is not refused. |
| Broker.PaperExecutor.Execute | core/broker.py:67-76 | Appends the order. |
| Broker.SellsMeetTheFloor | core/broker.py:131-143 | After any run on such a clock a well-formed sell is executed exactly when it is not below the floor of the last buy in the window, read off the whole unpruned run; a refused one leaves the executor untouched. |
| Broker.RoundTripsKeepTheTolerance | core/alpaca_singleton.py:460-472 | Over any run the product of sell over buy prices along its in-window round trips is at least (1-tolerance) to their number. |
| Broker.RunIsMemory | core/broker.py:131-143 | The persisted map after a run is the memory of its buys and looks. |
| Technical.PctChange | forecast/technical.py:36-42 | Each entry is the relative change over n bars, zero for the first n and for a tiny base. |
| Technical.RollingMean | forecast/technical.py:45-58 | The running sum over a queue gives at every index the mean of the last min(w, i+1) values. |
| Technical.RollingMax | forecast/technical.py:61-67 | At every index the greatest of the window. |
| Technical.RollingStdOfReturns | forecast/technical.py:70-92 | At every index the sample deviation of the returns in the window, with the fallback below two. |
| Technical.TrueRange | forecast/technical.py:95-106 | The true range, high minus low alone at the first bar. |
| Technical.TechnicalFeatures | forecast/technical.py:109-149 | One row per bar, in order, each the described row of its bar; fails exactly for unequal lengths. |
| FeatureRows.RowIsDescribed | forecast/technical.py:109-149 | Every entry of a row from the bars alone, in its place and with its own limits: 1-bar and 24-bar growth, deviation of the last growths by sums and squares, distance from the 24-bar and 72-bar mean by running totals, mean range over close, 72-bar growth, distance from the 72-bar top. |
| FeatureRows.RangeSpans | forecast/technical.py:95-106 | With the high above the low the true range spans the bar and the close before it. |
| FeatureRows.SignalIsTheDaysGrowth | core/kraken_paper.py:64-82 | The default signal: no conviction below twenty-five bars or from a base near zero; else the growth over twenty-four bars within one, positive exactly after a rise; risk at least 1e-4. |
| FeatureRows.LastRowIsDescribed | core/kraken_paper.py:78-82 | Conviction is the 24-bar growth and risk the mean range over the last close, between 1e-4 and a half. |
| Technical.RowsAreCausal | forecast/technical.py:36-149 | The rows of any prefix are the prefix of the rows. |
| Technical.SeventyThreeBarsSuffice | forecast/technical.py:124-149 | A row with at least seventy-two bars before it in a suffix is the row of the whole series. |
| Technical.SeventyTwoBarsNeedNoTrend | forecast/technical.py:139 | With exactly seventy-two bars the row is right if and only if the 72-hour trend is zero. |
| Technical.SeventyTwoBarsMiss | forecast/technical.py:139 | A doubling over 72 hours is missed from seventy-two bars. |
| KrakenPaper.KrakenPaperTrader.constructor | core/kraken_paper.py:104-122 | A new trader has no bars, positions, profit or fills. |
| KrakenPaper.KrakenPaperTrader.AppendBars | core/kraken_paper.py:129-132 | Every symbol in the snapshot gets its bar and keeps the last ones up to the history length. |
| KrakenPaper.KrakenPaperTrader.GatherSignals | core/kraken_paper.py:134-140 | One signal per symbol with bars, in snapshot order. |
| KrakenPaper.KrakenPaperTrader.SimulateExit | core/kraken_paper.py:202-219 | A guarded exit: no fill changes nothing, a refusal raises after pruning, a fill closes the position and books its net. |
| KrakenPaper.KrakenPaperTrader.SimulateEntry | core/kraken_paper.py:190-200 | A guarded entry: no fill changes nothing, a fill opens the position and remembers the buy. |
| KrakenPaper.KrakenPaperTrader.ExitUnwanted | core/kraken_paper.py:145-154 | Exits in holding order whatever is quoted and not wanted, up to the first refusal. |
| KrakenPaper.KrakenPaperTrader.EnterWanted | core/kraken_paper.py:156-167 | Entries in target order, up to the first failure. |
| KrakenPaper.KrakenPaperTrader.Step | core/kraken_paper.py:127-171 | The whole step equals the step function on bars, positions, profit, fills, memory and orders, and whether it raised. |
| PaperFills.FillPriceExactly | core/kraken_paper.py:190-219 | A simulated fill at a positive target in basis points, and zero exactly when the bar does not allow one. |
| PaperFills.EntryTerms | core/kraken_paper.py:156-167 | An entry buys its weight of the equity at the close, filled with the slippage on top. |
| PaperFills.ExitTerms | core/kraken_paper.py:202-219 | An exit sells all that is held at the close less the slippage, and books the cash of the sale less that of the buy, each with its fee. |
| PaperFills.LedgerInTerms | core/kraken_paper.py:127-219 | Every fill in the ledger of any run, raising steps included, is slipped against the trader by exactly the slippage, and no buy spends more of the equity than the cap on one name with its tolerance. |
| PaperLedger.StepKeepsTheLedger | core/kraken_paper.py:127-171 | What a step deals keeps positions, profit and orders in balance with the ledger, in which it is recorded unless the step raises; then the ledger stays in balance exactly when nothing was dealt. |
| LostFills.StepLosesFills | core/kraken_paper.py:145-171 | Read off the state before the step: it leaves the ledger out of balance if and only if, of the orders due (sells of held, unwanted, quoted names that fill, in holding order, then buys in target order), the first would be executed and some other would not; it raises exactly when the sizing divides by zero or some order due would not be executed. The sells due are timed in order. |
| LostFills.OnlySellsAreBlocked | core/broker.py:114-143 | With positive equity and named symbols an order due is not executed exactly when it is a sell the guard refuses on the book before the step, or one at a price that is not positive. |
| LostFills.RunHoldsSound | core/kraken_paper.py:190-219 | After any run, raising steps included, every held name is named and held in a positive quantity. |
| PaperLedger.RunKeepsTheLedger | core/kraken_paper.py:127-219 | Over runs in which no step raises: each symbol alternates buys and sells of equal quantity, is held exactly when its last fill is a buy, executor orders match fills one for one, and realised profit is the sum over round trips of the gain minus both fees. |
| LostFills.RefusalLosesFills | core/kraken_paper.py:145-171 | A run of two ticks from a new trader, with default sizing and guard: the first raises nothing and is in balance; at the second one name is sold, the other refused, and the ledger is out of balance. |
| PaperLedger.MomentumIgnoresOldBars | core/kraken_paper.py:64-82 | The default signal from the last n bars, n at least 73, is the signal from all bars. |
| PaperLedger.BoundedHistoryIsLossless | core/kraken_paper.py:102-140 | A trader keeping at least 73 bars runs exactly like one keeping all: positions, profit, ledger, memory, orders and raising steps, over every run. |
| Binpack.WriteMarketBin | sim/binpack.py:26-51 | Succeeds exactly when header numbers fit, names are ASCII and every row has its width; the file is header, names, features, prices. |
| Binpack.FileLayout | sim/binpack.py:33-50 | Where each part of a written file lies, and its length. |
| Binpack.MarketRoundTrip | sim/binpack.py:54-94 | Writing then reading gives the header, every feature and every price back; the size is 64+16S+4TSF+20TS. |
| Binpack.NameRoundTrip | sim/binpack.py:97-107 | A name comes back cut to fifteen characters, and equals that cut exactly when the cut has no NUL. |
| Binpack.ReadBlock | sim/binpack.py:64-77 | The running-index reader returns the block cell by cell, and fails exactly when it has cells and they do not lie inside the file. |
| Binpack.ReadFeatures | sim/binpack.py:80-85 | The feature block at the offset the header implies, failing exactly on a bad header or when its cells do not lie inside the file. |
| Binpack.ReadPrices | sim/binpack.py:88-94 | The price block at the offset the header implies, failing exactly on a bad header or when its cells do not lie inside the file. |
| Binpack.ReadSymbols | sim/binpack.py:97-107 | Each name up to its first NUL, failing exactly on non-ASCII bytes. |
| Binpack.LoaderAccepts | sim/src/trading_env.c:42-123 | On any written file with at most 128 symbols: with cells, the loader finds the dimensions and arrays (a width of 0 read as 16) and no mask below version 2, and refuses from version 2 on; without cells it always loads, with a mask. |
| Binpack.LoaderReadsWhatWasWritten | sim/include/trading_env.h:185-191 | Every indexed access of the loader reads the feature or price that was written. |
| Binpack.SpuriousMaskIffEmpty | sim/src/trading_env.c:98-123 | A written file of any version and width loads with a mask exactly when it has no bars or no symbols. |
| Binpack.LoaderInBounds | sim/src/trading_env.c:69-123 | Of any file the loader accepts: every offset the accessors use lies inside it exactly when there are no cells or the price array ends inside it, which the loader does not check. |
| Binpack.WrittenFileInBounds | sim/src/trading_env.c:76-81 | Of a written file that loads, that fails exactly when it has cells and was declared with no features. |
| Binpack.FeaturelessIsOutOfBounds | sim/src/trading_env.c:76-105 | One bar of one symbol without features, written and loaded: sixteen features are assumed and the price is looked for past the end. |
| Binpack.PackedWord | sim/binpack.py:47 | Four little-endian bytes determine the 32-bit pattern. |
| KrakenData.FetchOhlcvPaged | sim/kraken_data.py:71-99 | Terminates for any exchange, even one that answers differently each time, and computes the pages. |
| KrakenData.HonestPagingIsComplete | sim/kraken_data.py:71-99 | From an exchange that honestly pages spaced bars two or more at a time it collects every bar in [since, until) and nothing outside [since, until]. |
| KrakenData.OneBarPagesStop | sim/kraken_data.py:91-94 | When the first page is one bar within a step of the cursor, paging stops after it, whatever comes later. |
| KrakenData.MergeSeries | sim/kraken_data.py:165-175 | Every bar of the merge is that of the last source that has one; a symbol is present exactly when some source names it. |
| KrakenData.AlignToGrid | sim/kraken_data.py:181-222 | Fails exactly when no symbol has bars or they do not overlap; each cell is the aligned bar of its symbol on the grid from the latest first to the earliest last bar. The grid ends at the last exactly for whole steps, and a column of a symbol with positive closes has no zero close exactly when the symbol has a bar at the first. |
| KrakenData.LatestIsBar | sim/kraken_data.py:208-220 | The bar carried into a cell is that of the latest earlier grid point with one, and there is none exactly when no grid point so far has one. |
| KrakenData.FillColumn | sim/kraken_data.py:208-220 | The in-place column: real bar, else flat with zero volume at the latest earlier close, else zeros; other columns untouched. |
| KrakenData.GridSpans | sim/kraken_data.py:193-203 | The grid starts at the first common time, ends at or after the last by less than a step, and ends at it if and only if the two are a whole number of steps apart. |
| KrakenData.AlignmentKeepsItsPromise | sim/kraken_data.py:181-188 | For the series given: the grid spans first to last exactly when they are whole steps apart, and a kept symbol has a bar behind every cell exactly when it has one at the first common time. |
| KrakenData.CellIsCovered | sim/kraken_data.py:208-220 | A cell with no bar of its symbol on the grid so far is zeros; any other is a bar of the symbol or flat at the close of one. |
| KrakenData.ColumnIsCovered | sim/kraken_data.py:208-220 | A column has a bar behind every cell exactly when its symbol has one at the grid's start; for positive closes, exactly when every close of the column is positive. |
| KrakenData.HoleAtTheStart | sim/kraken_data.py:216-218 | For every step, two symbols with bars at 0 and 2 steps and at 1 and 2 steps: both are kept and the first price of the first is zeros. |
| KrakenData.GridPassesTheLastBar | sim/kraken_data.py:203 | A symbol whose last bar is half a step after its first has a grid that ends half a step later. |
| Gae.ComputeGae | models/rl/policy.py:55-70 | The backward loop computes the recurrence and returns advantage plus value; it fails exactly when values or done flags are too short. |
| Gae.AdvantageIsDiscountedErrors | models/rl/policy.py:62-68 | With 0/1 done flags an advantage is the sum of temporal-difference errors to the end of its episode, discounted by powers of gamma times lambda. |
| Gae.DoneCutsTheFuture | models/rl/policy.py:64-67 | Two rollouts alike up to a done step have the same advantages up to it, whatever follows, however long. |
| Gae.ReturnsTelescope | models/rl/policy.py:69 | With lambda 1 a return is the discounted reward-to-go of its episode plus the discounted bootstrap value when the rollout stops inside it. |

## Left out

- Floating-point rounding, NaN and infinity: all arithmetic is exact; 32-bit integers are unbounded, so overflow of the C counters and header fields is not modelled.
- Reward shaping and Sortino (`sim/src/trading_env.c:684-760`, `809-822`): the reward and the running return sums feed back into neither the account, the observation nor the rest of the log.
- The generator's own state update (`sim/src/trading_env.c:19-27`): its raw words are inputs, so theorems hold for every sequence of draws.
- `any_tradable`, prefetching, allocation, file access, standard-error output and the bindings.
- A policy with memory: policies are functions of the observation. The gate's windows are a fixed table, and `GenerateOffsets` takes the seeded generator's stream as an argument.
- LostFills.StepLosesFills: assumes that the sells due are timed in the order they are sent; on a clock set back between two of them, the pruning of the first can make the guard forget the buy behind the second (`BuyMemory.BackwardClockForgets`).
- HoldingTime.HoldCountsSteps: assumes, as `HoldingTime.ClosedByLimit` does, that no bar starts with the position at the limit and stuck; `HoldingTime.HoldCountsActions` gives the age without that.
- Processes that fork while holding a lock: a child would share both the open file and a copy of the registry, so two live lock objects on one path would be possible. The model assumes that every process starts with an empty registry and opens its own files.
- Symbolic links, unlinked lock files, account-name normalisation, the lock file's payload and the release at interpreter exit: a path stands for the locked file.
- SingleWriter.FreePathIsAcquired: is about an uninterrupted acquire; fairness between competing acquires is not modelled.
- The store behind the buy memory is intact and each operation atomic under its file lock; quarantine, temporary files, environment flags beyond the override, and legacy keyword arguments are not modelled. Letters outside ASCII have no case.
- Time stamps of paper fills, persistence of the ledger file and the forming-bar price of a snapshot.
- The numpy path of the writer, and the bytes of a file left behind by a write that raises.
- Non-integer time stamps, rate limiting, CSV dumps and the assembly of the feature block in `sim/kraken_data.py`.
- `core/trading_server.py`, `core/kraken_feed.py`, `core/kraken_executor.py`, `core/paper_runner.py`, training, forecasting and sweep scripts: wrappers, or simpler copies of what is modelled.
