/** The price series and the parameter records the backtest reads. */
module Series {
  import opened Sorting

  datatype Option<+T> = None | Some(value: T)

  /** One daily bar. Dates are day numbers: their order is the calendar order. */
  datatype Bar = Bar(date: int, open: real, high: real, low: real, close: real, volume: Option<real>)

  /** The strategy's two moving-average windows, as read from the configuration. */
  datatype StrategyParams = StrategyParams(fast: int, slow: int)

  /** How orders are filled; `fill` is carried but not consulted by the backtest. */
  datatype ExecutionParams = ExecutionParams(fill: string, qty: int)

  /** The `close` column of the series. */
  function Closes(bars: seq<Bar>): (c: seq<real>)
    ensures |c| == |bars|
    ensures forall i :: 0 <= i < |bars| ==> c[i] == bars[i].close
  {
    seq(|bars|, i requires 0 <= i < |bars| => bars[i].close)
  }

  /** The `date` column, the key the series is sorted by. */
  function BarDate(b: Bar): int
  {
    b.date
  }

  /** The series is sorted by date (equal dates allowed), as sorting the frame leaves it. */
  predicate DatesAscending(bars: seq<Bar>)
  {
    SortedBy(bars, BarDate)
  }

  /** No two bars share a date. */
  predicate DatesStrictlyAscending(bars: seq<Bar>)
  {
    forall i, j :: 0 <= i < j < |bars| ==> bars[i].date < bars[j].date
  }
}
