/**
 * The backtest entry point: sort the bars by date, check the windows, build
 * the signal series, simulate, and sort the ledger by entry date.
 */
module Backtest {
  import opened Series
  import opened Sorting
  import opened Indicators
  import opened Signals
  import opened Simulator

  /** The one parameter error the backtest raises. */
  datatype BacktestError = NonPositiveWindow

  datatype Result<T> = Ok(value: T) | Err(error: BacktestError)

  /**
   * The order ledger, plus whether the fast window is not shorter than the
   * slow one (the backtest only warns about that and carries on).
   */
  datatype Report = Report(orders: seq<Trade>, degenerate: bool)

  /** The signal series of a date-sorted series under the two windows. */
  function SignalFor(series: seq<Bar>, fast: nat, slow: nat): (signal: seq<Signal>)
    requires fast > 0 && slow > 0
    ensures |signal| == |series|
  {
    SignalSeries(Closes(series), fast, slow)
  }

  /**
   * Runs the SMA crossover backtest. A window that is not positive is an
   * error. Otherwise the result is the ledger of the date-sorted series, and
   * sorting that ledger by entry date leaves it as it was.
   */
  method RunSmaCrossover(bars: seq<Bar>, strategy: StrategyParams, execution: ExecutionParams)
    returns (r: Result<Report>)
    ensures r.Err? <==> strategy.fast <= 0 || strategy.slow <= 0
    ensures r.Err? ==> r.error == NonPositiveWindow
    ensures r.Ok? ==>
      var series := SortBy(bars, BarDate);
      && r.value.degenerate == (strategy.fast >= strategy.slow)
      && r.value.orders == Ledger(series, SignalFor(series, strategy.fast, strategy.slow), execution.qty)
      && SortedBy(r.value.orders, EntryDate)
  {
    var series := SortBy(bars, BarDate);
    var fast, slow := strategy.fast, strategy.slow;
    if fast <= 0 || slow <= 0 {
      return Err(NonPositiveWindow);
    }
    var degenerate := fast >= slow;
    var signal := SignalFor(series, fast, slow);
    var orders := Simulate(series, signal, execution.qty);
    LedgerInEntryOrder(series, signal, execution.qty);
    if |orders| > 0 {
      SortKeepsSorted(orders, EntryDate);
      orders := SortBy(orders, EntryDate);
    }
    return Ok(Report(orders, degenerate));
  }

  /**
   * A series of at most w + 1 bars, for either window w, yields no trades:
   * the first entry signal can only be acted on at step w, and the loop
   * stops one bar before the end.
   */
  lemma ShortSeriesHasNoTrades(series: seq<Bar>, fast: nat, slow: nat, qty: int)
    requires fast > 0 && slow > 0 && (|series| <= slow + 1 || |series| <= fast + 1)
    ensures Ledger(series, SignalFor(series, fast, slow), qty) == []
  {
    var signal := SignalFor(series, fast, slow);
    forall j | 0 <= j < Steps(|series|)
      ensures signal[j] != EnterLong
    {
      if signal[j] == EnterLong {
        EntryNeedsBothAverages(Closes(series), fast, slow, j);
      }
    }
    NoEntryNoTrades(signal, Steps(|series|));
  }

  /** Equal windows give two identical averages: nothing ever crosses, nothing is traded. */
  lemma EqualWindowsHaveNoTrades(series: seq<Bar>, w: nat, qty: int)
    requires w > 0
    ensures Ledger(series, SignalFor(series, w, w), qty) == []
  {
    var signal := SignalFor(series, w, w);
    EqualWindowsNeverSignal(Closes(series), w);
    NoEntryNoTrades(signal, Steps(|series|));
  }

  /**
   * No look-ahead: everything the loop has done by the fill at the open of
   * bar k depends only on the closes of bars before k - 1.
   */
  lemma FillsUseOnlyEarlierCloses(s1: seq<Bar>, s2: seq<Bar>, fast: nat, slow: nat, k: nat)
    requires fast > 0 && slow > 0
    requires 0 < k <= |s1| && k <= |s2|
    requires Closes(s1)[..k - 1] == Closes(s2)[..k - 1]
    ensures Walk(SignalFor(s1, fast, slow), k) == Walk(SignalFor(s2, fast, slow), k)
  {
    var c1, c2 := Closes(s1), Closes(s2);
    var sig1, sig2 := SignalFor(s1, fast, slow), SignalFor(s2, fast, slow);
    forall j | 0 <= j < k
      ensures sig1[j] == sig2[j]
    {
      assert c1[..j] == c1[..k - 1][..j] && c2[..j] == c2[..k - 1][..j];
      SignalUsesOnlyEarlierCloses(c1, c2, fast, slow, j);
    }
    assert sig1[..k] == sig2[..k];
    WalkUsesOnlyEarlierSignals(sig1, sig2, k);
  }

  lemma MeanOfTwo(a: real, b: real)
    ensures Mean([a, b]) == (a + b) / 2.0
  {
    assert [a, b][..1] == [a] && [a][..0] == [];
    assert Sum([a]) == a;
    assert Sum([a, b]) == a + b;
  }

  lemma MeanOfThree(a: real, b: real, c: real)
    ensures Mean([a, b, c]) == (a + b + c) / 3.0
  {
    assert [a, b, c][..2] == [a, b] && [a, b][..1] == [a] && [a][..0] == [];
    assert Sum([a]) == a;
    assert Sum([a, b]) == a + b;
    assert Sum([a, b, c]) == a + b + c;
  }

  /** The two averages of the worked run, from bar 2 (where both exist) to bar 6. */
  lemma WorkedRunAverages(c: seq<real>)
    requires c == [10.0, 10.0, 10.0, 12.0, 14.0, 9.0, 9.0, 9.0]
    ensures Sma(c, 2)[2] == Some(10.0) && Sma(c, 3)[2] == Some(10.0)
    ensures Sma(c, 2)[3] == Some(11.0) && Sma(c, 3)[3] == Some(32.0 / 3.0)
    ensures Sma(c, 2)[4] == Some(13.0) && Sma(c, 3)[4] == Some(12.0)
    ensures Sma(c, 2)[5] == Some(11.5) && Sma(c, 3)[5] == Some(35.0 / 3.0)
    ensures Sma(c, 2)[6] == Some(9.0) && Sma(c, 3)[6] == Some(32.0 / 3.0)
  {
    assert c[1..3] == [10.0, 10.0] && c[0..3] == [10.0, 10.0, 10.0];
    MeanOfTwo(10.0, 10.0);
    MeanOfThree(10.0, 10.0, 10.0);
    assert c[2..4] == [10.0, 12.0] && c[1..4] == [10.0, 10.0, 12.0];
    MeanOfTwo(10.0, 12.0);
    MeanOfThree(10.0, 10.0, 12.0);
    assert c[3..5] == [12.0, 14.0] && c[2..5] == [10.0, 12.0, 14.0];
    MeanOfTwo(12.0, 14.0);
    MeanOfThree(10.0, 12.0, 14.0);
    assert c[4..6] == [14.0, 9.0] && c[3..6] == [12.0, 14.0, 9.0];
    MeanOfTwo(14.0, 9.0);
    MeanOfThree(12.0, 14.0, 9.0);
    assert c[5..7] == [9.0, 9.0] && c[4..7] == [14.0, 9.0, 9.0];
    MeanOfTwo(9.0, 9.0);
    MeanOfThree(14.0, 9.0, 9.0);
  }

  /** The signal the loop reads at steps 0 .. 6 of the worked run. */
  lemma WorkedRunSignal(c: seq<real>)
    requires c == [10.0, 10.0, 10.0, 12.0, 14.0, 9.0, 9.0, 9.0]
    ensures SignalSeries(c, 2, 3)[..7] == [Hold, Hold, Hold, Hold, EnterLong, Hold, ExitLong]
  {
    WorkedRunAverages(c);
    var fs, ss := Sma(c, 2), Sma(c, 3);
    var gt := FastAbove(fs, ss);
    assert !gt[0] && !gt[1] && !gt[2] && gt[3] && gt[4] && !gt[5] && !gt[6];
    var raw := RawSignal(gt);
    assert raw[..6] == [Hold, Hold, Hold, EnterLong, Hold, ExitLong];
    var signal := SignalSeries(c, 2, 3);
    assert signal == LaggedSignal(raw);
  }

  /** The loop over that signal enters at bar 5 and leaves at bar 7. */
  lemma WorkedRunWalk(signal: seq<Signal>)
    requires |signal| >= 7 && signal[..7] == [Hold, Hold, Hold, Hold, EnterLong, Hold, ExitLong]
    ensures Walk(signal, 7) == Run([Closed(5, 7)], None)
  {
    assert signal[4] == EnterLong && signal[6] == ExitLong;
    assert signal[0] == Hold && signal[1] == Hold && signal[2] == Hold && signal[3] == Hold && signal[5] == Hold;
    assert Walk(signal, 1) == Run([], None);
    assert Walk(signal, 2) == Run([], None);
    assert Walk(signal, 3) == Run([], None);
    assert Walk(signal, 4) == Run([], None);
    assert Walk(signal, 5) == Run([], Some(5));
    assert Walk(signal, 6) == Run([], Some(5));
  }

  /**
   * A worked run with windows 2 and 3 and 10 units: the fast average rises
   * above the slow one at bar 3 and falls back at bar 5, so the position is
   * filled at the open of bar 5 and closed at the open of bar 7.
   */
  lemma CrossUpThenDown(series: seq<Bar>)
    requires Closes(series) == [10.0, 10.0, 10.0, 12.0, 14.0, 9.0, 9.0, 9.0]
    ensures Ledger(series, SignalFor(series, 2, 3), 10) == [
      Trade(series[5].date, series[5].open, 10, Some(series[7].date), Some(series[7].open),
            Some((series[7].open - series[5].open) * 10.0), Some(2))]
  {
    var signal := SignalFor(series, 2, 3);
    WorkedRunSignal(Closes(series));
    WorkedRunWalk(signal);
    WorkedRunLedger(series, signal);
  }

  /** The ledger of a run of eight bars whose loop entered at bar 5 and left at bar 7. */
  lemma WorkedRunLedger(series: seq<Bar>, signal: seq<Signal>)
    requires |series| == 8 && |signal| == 8
    requires Walk(signal, 7) == Run([Closed(5, 7)], None)
    ensures Ledger(series, signal, 10) == [
      Trade(series[5].date, series[5].open, 10, Some(series[7].date), Some(series[7].open),
            Some((series[7].open - series[5].open) * 10.0), Some(2))]
  {
    var run := Run([Closed(5, 7)], None);
    assert ClosedTrades(series, 10, run.closed) == [ClosedTrade(series, 10, Closed(5, 7))];
    assert Ledger(series, signal, 10) == Rows(series, 10, run);
  }
}
