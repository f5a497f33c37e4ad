# SMA crossover backtest — a verified model

This project models the backtest at the heart of `run_strategy.py`: a long/flat
simple-moving-average (SMA) crossover strategy on a daily price series. The
backtest works in five steps:

1. It sorts the bars by date.
2. It rejects a window that is not positive.
3. It computes a fast SMA and a slow SMA of the closes. It marks a bar +1
   where the fast average crosses above the slow one and −1 where it
   crosses below. It then lags these marks by one bar.
4. It walks the bars with a flat/long state machine and fills every order at
   the next bar's open.
5. It returns the order ledger, sorted by entry date. A position still open
   at the end appears with blank exit fields.

Modules, one per stage:

- `Sorting` (`sorting.dfy`): sorting rows by an integer key, used for the
  bars and for the ledger.
- `Series` (`series.dfy`): bars, the parameter records, the `close` column
  and date order.
- `Indicators` (`indicators.dfy`): `Sma`. It is built on an incremental
  running sum (`WindowSum`) and proved equal to the mean of a fresh window.
- `Signals` (`signals.dfy`): the comparison series, `Shift`, the raw +1/−1/0
  signal and the one-bar lag.
- `Simulator` (`simulator.dfy`): the loop as the method `Simulate`. It is
  proved against `Walk`, a function over bar indices. `Walk` is
  characterised by the transition table (`FollowsTable`). The ledger rows
  are built from the run by `Rows` and `Ledger`.
- `Backtest` (`backtest.dfy`): `RunSmaCrossover` and lemmas about the whole
  pipeline.

Some behaviours of the code differ from what a reader might expect; the model
follows the code:

- One might expect the first bar where both averages exist not to produce a
  cross, since there is no earlier comparison. The code lets it: before that
  bar the comparison is false, so "not above at the previous bar" holds, and
  a +1 fires there exactly when fast is above slow
  (`Signals.FirstComparableBarMayEnter`).
- One might expect a quantity that is zero or negative to be rejected. The
  code converts it to an integer and uses it as it is.
- A series with fewer than `slow` bars gives an empty ledger. So does any
  series of at most `max(fast, slow) + 1` bars
  (`Backtest.ShortSeriesHasNoTrades`).
- The lag means a crossover seen at the close of bar j is filled at the open
  of bar j + 2. The loop reads the lagged signal of bar j + 1 and fills at
  the next bar.

## Model

| member | source | states |
|---|---|---|
| Sorting.SortBy | run_strategy.py:122 | the result is sorted by the key and is a permutation (same multiset) of the input |
| Sorting.InsertBy | run_strategy.py:122 | inserting into a sorted sequence keeps it sorted and adds exactly the inserted row |
| Sorting.SortKeepsSorted | run_strategy.py:192-193 | sorting a sequence already in key order returns it unchanged |
| Indicators.WindowSumIsFreshSum | run_strategy.py:130-131 | the running sum after k closes equals the fresh sum of the last min(k, w) closes |
| Indicators.Sma | run_strategy.py:130-131 | the average exists at bar i exactly when i >= w - 1 (min_periods = window), and then equals the mean of the w closes ending at i |
| Indicators.SmaUsesOnlyPastCloses | run_strategy.py:130-131 | the average at bar i depends only on the closes up to bar i |
| Signals.Shift | run_strategy.py:134-135 | shifting by one keeps the length, puts the fill value first and moves every element one bar later |
| Signals.RawSignal | run_strategy.py:133-137 | +1 exactly where the comparison turns from false to true, -1 exactly where it turns from true to false, 0 elsewhere and at bar 0 |
| Signals.LaggedSignal | run_strategy.py:138 | the signal at bar i is the raw signal of bar i - 1, and 0 at bar 0 |
| Signals.EntryNeedsBothAverages | run_strategy.py:130-138 | a lagged +1 at bar i needs i >= 2, i >= fast and i >= slow |
| Signals.EqualWindowsNeverSignal | run_strategy.py:127-138 | with fast == slow every signal is 0 |
| Signals.FirstComparableBarMayEnter | run_strategy.py:133-137 | at the first bar where both averages exist, the raw signal is +1 exactly when fast is above slow there |
| Signals.SignalUsesOnlyEarlierCloses | run_strategy.py:130-138 | the lagged signal at bar i depends only on the closes of bars before i |
| Indicators.WindowSum | run_strategy.py:130-131 | the running sum that the rolling mean is computed with: add the new close, drop the one leaving the window; its meaning is stated by Indicators.WindowSumIsFreshSum |
| Signals.Above | run_strategy.py:133 | one bar's `sma_fast > sma_slow`: strict, and false when either average is undefined |
| Signals.FastAbove | run_strategy.py:133 | the comparison series is false wherever an average is undefined and otherwise true exactly when fast is strictly above slow |
| Signals.CrossUp | run_strategy.py:134 | true exactly at bars i > 0 where the comparison is true and was false at i - 1 |
| Signals.CrossDown | run_strategy.py:135 | true exactly at bars i > 0 where the comparison is false and was true at i - 1 |
| Signals.SignalSeries | run_strategy.py:130-138 | the signal at bar i is +1 exactly when i > 1 and fast was above slow at i - 1 but not at i - 2, and -1 exactly when i > 1 and fast was not above slow at i - 1 but was at i - 2 |
| Simulator.Pnl | run_strategy.py:162 | for a positive quantity the trade profits exactly when the exit price is above the entry price and loses exactly when it is below; zero quantity or equal prices give zero |
| Simulator.Walk | run_strategy.py:147-176 | the run after k loop steps, by bar index; its contract is stated by Simulator.WalkIsTheTableRun and Simulator.WalkDisjoint |
| Simulator.Steps | run_strategy.py:147 | the loop runs len - 1 steps, and none on an empty series: every step's fill bar is inside the series, and every bar after the first is some step's fill bar |
| Simulator.ClosedTrade | run_strategy.py:159-172 | a closed row carries the given qty, all exit fields, pnl = Pnl(its entry price, its exit price, qty) and bars_held = exit bar - entry bar |
| Simulator.OpenTrade | run_strategy.py:178-187 | an open row takes its entry date and price from its entry bar, carries the given qty and has every exit field blank |
| Simulator.Rows | run_strategy.py:164-187 | the rows of a run: one per closed round trip, plus one if a position is open; its shape is stated by Simulator.RowsShape |
| Simulator.Ledger | run_strategy.py:140-187 | the ledger of the whole loop: the rows of the run after len - 1 steps; its properties are stated by Simulator.LedgerShape, Simulator.LedgerInEntryOrder and Simulator.LedgerFillsFollowSignals |
| Simulator.WalkDisjoint | run_strategy.py:152-176 | at most one position is open at a time: each round trip closes after it opens and before the next opens, and an open position follows the last close |
| Simulator.DisjointLater | run_strategy.py:147-176 | a step that neither enters nor exits keeps positions disjoint |
| Simulator.DisjointAfterEntry | run_strategy.py:152-156 | entering from flat at bar k keeps positions disjoint: the entry comes after the last close |
| Simulator.TripsSnoc | run_strategy.py:158-176 | appending a round trip keeps the trips obeying the transition table exactly when the new trip obeys it from the bar of the last close |
| Simulator.WalkFollowsTable | run_strategy.py:147-176 | the loop's run obeys the transition table: each entry is the first +1 seen while flat, each exit the first -1 seen while long, and later steps saw no signal that would act |
| Simulator.TableDeterminesRun | run_strategy.py:147-176 | any run obeying the transition table over k steps is the loop's run |
| Simulator.WalkIsTheTableRun | run_strategy.py:147-176 | a run obeys the transition table if and only if it is the loop's run |
| Simulator.WalkUsesOnlyEarlierSignals | run_strategy.py:147-148 | the run after k steps depends only on the signals of bars before k |
| Simulator.WalkInSeries | run_strategy.py:147-150 | within len - 1 steps every fill bar lies inside the series |
| Simulator.ClosedTradesAppend | run_strategy.py:164-172 | appending a round trip appends exactly its row to the ledger |
| Simulator.Simulate | run_strategy.py:140-187 | the loop's ledger is the rows of the run after len - 1 steps: closed trades in closing order, then the open position with blank exit fields |
| Simulator.RowsShape | run_strategy.py:164-187 | every row has the given qty; exit fields are all present or all blank; a closed row's pnl is (exit - entry) * qty and it is held at least one bar; only the last row can be open, and it is open exactly when the run ends long |
| Simulator.LedgerShape | run_strategy.py:161-187 | the same row facts for the whole ledger; the last row is open exactly when the loop ends long |
| Simulator.EntryBarsIncrease | run_strategy.py:152-176 | entry bars strictly increase from row to row |
| Simulator.RowEntry | run_strategy.py:154-155 | each row's entry date and price are those of its entry bar |
| Simulator.AdjacentRows | run_strategy.py:152-176 | each row that has a successor is closed, and closes after it opens and before the next row opens |
| Simulator.RowsInEntryOrder | run_strategy.py:152-187 | on a date-sorted series the rows are sorted by entry date; with distinct dates they never overlap |
| Simulator.LedgerInEntryOrder | run_strategy.py:152-187 | on a date-sorted series the ledger is sorted by entry date; with distinct dates each trade exits before the next enters |
| Simulator.LedgerFillsFollowSignals | run_strategy.py:147-172 | every row enters at the open and date of the bar after a +1; a closed row exits at the open and date of the bar after a -1, bars_held bars later |
| Simulator.NoEntryNoTrades | run_strategy.py:152-157 | without a +1 signal nothing is ever traded |
| Backtest.RunSmaCrossover | run_strategy.py:122-194 | a non-positive window is the only error; otherwise the degenerate flag is fast >= slow, the orders are the ledger of the date-sorted series, and they are already in entry-date order |
| Backtest.ShortSeriesHasNoTrades | run_strategy.py:130-147 | a series of at most w + 1 bars, for either window w, has an empty ledger |
| Backtest.EqualWindowsHaveNoTrades | run_strategy.py:127-138 | equal windows give an empty ledger |
| Backtest.FillsUseOnlyEarlierCloses | run_strategy.py:138-150 | no look-ahead: the run up to the fill at the open of bar k depends only on the closes of bars before k - 1 |
| Backtest.WorkedRunAverages | run_strategy.py:130-131 | the two averages of the closes 10,10,10,12,14,9,9,9 with windows 2 and 3 |
| Backtest.WorkedRunSignal | run_strategy.py:133-138 | for those closes the lagged signal is +1 at bar 4 and -1 at bar 6, 0 elsewhere before bar 7 |
| Backtest.WorkedRunWalk | run_strategy.py:147-176 | that signal gives one round trip entered at bar 5 and closed at bar 7 |
| Backtest.WorkedRunLedger | run_strategy.py:159-172 | eight bars whose loop entered at bar 5 and left at bar 7 give one closed row: fills at the opens of bars 5 and 7, pnl (open7 - open5) * 10, held 2 bars |
| Backtest.CrossUpThenDown | run_strategy.py:130-187 | for those closes and qty 10 the ledger is one closed trade from the open of bar 5 to the open of bar 7, pnl (open7 - open5) * 10, held 2 bars |

## Left out

- Loading the data is not modelled: `ensure_clean_csv_exists` (run_strategy.py:66-110, which writes a cleaned CSV when none exists), reading the CSV, lower-casing the column names and the missing-column `ValueError` (run_strategy.py:113-119). The model starts from a typed sequence of bars.
- Date parsing with `dayfirst` and `errors="coerce"` (run_strategy.py:120) is not modelled. Dates are day numbers whose integer order is the calendar order. An unparseable date (NaT) is not modelled.
- The ISO text form of the ledger's dates is not modelled. ISO dates sort as text in the same order as the day numbers, so sorting by the number sorts as the code does.
- The warning printed when fast >= slow is I/O. The model returns it as the flag `Report.degenerate`.
- Floating point is not modelled. Prices and averages are exact reals, so a rounding effect in the rolling mean or in a comparison is not captured.
- NaN is not modelled as a float. A missing average is `None`, and a comparison involving it is false, as NaN comparisons are. A blank ledger cell is `None`.
- Sorting.SortBy is an insertion sort that places each row after the earlier rows with an equal key. pandas' default sort is a quicksort with no such guarantee. The two order distinct keys the same way but can order rows with equal dates differently. For the ledger the difference cannot show when bar dates are distinct: entry dates then strictly increase (`Simulator.NonOverlapping`), so any sort returns the rows unchanged. With repeated bar dates two trades can share an entry date, and pandas may reorder them.
- Backtest.RunSmaCrossover: its clause that the orders equal the loop's ledger relies on the sort keeping rows with equal entry dates in order. That holds for `Sorting.SortBy`. With repeated bar dates it is not promised by pandas' sort at run_strategy.py:193, which may reorder trades that share an entry date.
- `reset_index` is not modelled. A Dafny sequence has no separate index.
- The `entry_idx is None`, `entry_price is None` and empty `entry_dt` fallbacks (run_strategy.py:161, 165-166, 180-181) are not modelled. In a long position the entry fields are always set, so these branches never run.
- The `high`, `low` and `volume` columns and the `fill` setting are carried but never read, as in the code.
- `load_config`, `write_orders_excel` and `main` (run_strategy.py:45-64, 196-213) are configuration and file I/O. fetch_yahoo.py and clean_data.py are not part of this model.
