/** The position simulator: a flat/long machine that turns signals into trades. */
module Simulator {
  import opened Series
  import opened Signals
  import opened Sorting

  /** The simulator's only state: flat, or long since a recorded entry. */
  datatype Position = Flat | Long(entryPrice: real, entryDate: int, entryIdx: nat)

  /**
   * One row of the order ledger. A trade still open when the series ends has
   * its exit date, exit price, profit and holding period blank (`None`).
   */
  datatype Trade = Trade(
    entryDate: int, entryPrice: real, qty: int,
    exitDate: Option<int>, exitPrice: Option<real>, pnl: Option<real>, barsHeld: Option<int>)

  /** Profit of a long round trip of `qty` units. */
  function Pnl(entryPrice: real, exitPrice: real, qty: int): (r: real)
    ensures qty > 0 ==> (r > 0.0 <==> exitPrice > entryPrice) && (r < 0.0 <==> exitPrice < entryPrice)
    ensures qty == 0 || exitPrice == entryPrice ==> r == 0.0
  {
    (exitPrice - entryPrice) * qty as real
  }

  /** A closed round trip by bar index: filled at bar `entry`, closed at bar `exit`. */
  datatype Closed = Closed(entry: nat, exit: nat)

  /** The run so far by bar index: the closed round trips and the entry bar of an open one. */
  datatype Run = Run(closed: seq<Closed>, open: Option<nat>)

  /**
   * The run after loop steps 0 .. k-1. Step i reads the signal of bar i and
   * fills at bar i + 1: an entry only from flat, an exit only from long, and
   * every other pair of state and signal changes nothing.
   */
  function Walk(signal: seq<Signal>, k: nat): Run
    requires k <= |signal|
  {
    if k == 0 then Run([], None)
    else
      var run := Walk(signal, k - 1);
      match run.open
      case None => if signal[k - 1] == EnterLong then Run(run.closed, Some(k)) else run
      case Some(e) => if signal[k - 1] == ExitLong then Run(run.closed + [Closed(e, k)], None) else run
  }

  /** The bar from which the machine was flat before the m-th round trip. */
  function FlatFrom(closed: seq<Closed>, m: nat): nat
    requires m <= |closed|
  {
    if m == 0 then 0 else closed[m - 1].exit
  }

  /**
   * At most one position is open at a time: round trips lie within the k
   * steps, each closes after it opens, each closes before the next opens, and
   * an open position was entered after the last close.
   */
  predicate Disjoint(run: Run, k: nat)
  {
    && (forall m {:trigger FlatFrom(run.closed, m)} :: 0 <= m < |run.closed| ==>
          FlatFrom(run.closed, m) < run.closed[m].entry < run.closed[m].exit <= k)
    && (run.open.Some? ==> FlatFrom(run.closed, |run.closed|) < run.open.value <= k)
  }

  lemma {:induction false} WalkDisjoint(signal: seq<Signal>, k: nat)
    requires k <= |signal|
    ensures Disjoint(Walk(signal, k), k)
  {
    if k > 0 {
      WalkDisjoint(signal, k - 1);
      var before := Walk(signal, k - 1);
      var n := |before.closed|;
      match before.open
      case None =>
        if signal[k - 1] == EnterLong {
          DisjointAfterEntry(before, k);
          assert Walk(signal, k) == Run(before.closed, Some(k));
        } else {
          DisjointLater(before, k);
          assert Walk(signal, k) == before;
        }
      case Some(e) =>
        if signal[k - 1] == ExitLong {
          var closed := before.closed + [Closed(e, k)];
          assert Walk(signal, k) == Run(closed, None);
          assert forall m :: 0 <= m < n ==> closed[m] == before.closed[m];
          forall m | 0 <= m < |closed|
            ensures FlatFrom(closed, m) < closed[m].entry < closed[m].exit <= k
          {
            if m < n {
              assert FlatFrom(before.closed, m) < before.closed[m].entry;
            } else {
              assert FlatFrom(closed, m) == FlatFrom(before.closed, n);
            }
          }
        } else {
          DisjointLater(before, k);
          assert Walk(signal, k) == before;
        }
    }
  }

  /** A step that changes nothing keeps the run disjoint. */
  lemma DisjointLater(run: Run, k: nat)
    requires k > 0 && Disjoint(run, k - 1)
    ensures Disjoint(run, k)
  {
    forall m | 0 <= m < |run.closed|
      ensures FlatFrom(run.closed, m) < run.closed[m].entry < run.closed[m].exit <= k
    {
      assert FlatFrom(run.closed, m) < run.closed[m].entry;
    }
  }

  /** Entering at bar k from flat keeps the run disjoint. */
  lemma DisjointAfterEntry(run: Run, k: nat)
    requires k > 0 && Disjoint(run, k - 1) && run.open.None?
    ensures Disjoint(Run(run.closed, Some(k)), k)
  {
    DisjointLater(run, k);
    var n := |run.closed|;
    if n > 0 {
      assert FlatFrom(run.closed, n - 1) < run.closed[n - 1].entry;
      assert FlatFrom(run.closed, n) == run.closed[n - 1].exit;
    }
    assert FlatFrom(run.closed, n) < k;
    var after := Run(run.closed, Some(k));
    assert after.closed == run.closed;
    forall m | 0 <= m < |after.closed|
      ensures FlatFrom(after.closed, m) < after.closed[m].entry < after.closed[m].exit <= k
    {
      assert FlatFrom(run.closed, m) < run.closed[m].entry;
    }
  }

  /** Signal `s` does not occur at any step in [lo, hi). */
  predicate Absent(signal: seq<Signal>, s: Signal, lo: int, hi: int)
  {
    forall j :: lo <= j < hi && 0 <= j < |signal| ==> signal[j] != s
  }

  /**
   * Being flat from bar `flat`, the machine enters at bar e: the entry signal
   * of step e - 1 is the first one since it went flat.
   */
  predicate EntersAt(signal: seq<Signal>, flat: nat, e: nat)
  {
    && flat < e <= |signal|
    && signal[e - 1] == EnterLong
    && Absent(signal, EnterLong, flat, e - 1)
  }

  /** A closed round trip: entered as above, left on the first exit signal after the entry. */
  predicate RoundTrip(signal: seq<Signal>, flat: nat, c: Closed)
  {
    && EntersAt(signal, flat, c.entry)
    && c.entry < c.exit <= |signal|
    && signal[c.exit - 1] == ExitLong
    && Absent(signal, ExitLong, c.entry, c.exit - 1)
  }

  /** Every closed round trip, from the bar its predecessor closed on, obeys the transition table. */
  predicate TripsFollowTable(signal: seq<Signal>, closed: seq<Closed>)
  {
    forall m {:trigger FlatFrom(closed, m)} :: 0 <= m < |closed| ==> RoundTrip(signal, FlatFrom(closed, m), closed[m])
  }

  /**
   * The steps after the last fill, up to step k: flat since bar `flat` with no
   * entry signal seen, or entered at bar e with no exit signal seen since.
   */
  predicate TailFollowsTable(signal: seq<Signal>, k: nat, flat: nat, open: Option<nat>)
    requires k <= |signal|
  {
    match open
    case None => flat <= k && Absent(signal, EnterLong, flat, k)
    case Some(e) => EntersAt(signal, flat, e) && e <= k && Absent(signal, ExitLong, e, k)
  }

  /**
   * The transition table read over a whole run of k steps: every round trip
   * opens on the first entry signal met while flat and closes on the first
   * exit signal met while long; the steps after the last fill saw no entry
   * signal (when flat) or no exit signal (when long).
   */
  predicate FollowsTable(signal: seq<Signal>, k: nat, run: Run)
    requires k <= |signal|
  {
    && TripsFollowTable(signal, run.closed)
    && TailFollowsTable(signal, k, FlatFrom(run.closed, |run.closed|), run.open)
  }

  /** Appending one round trip: the trips obey the table exactly when the earlier ones do and the new one does. */
  lemma TripsSnoc(signal: seq<Signal>, closed: seq<Closed>, c: Closed)
    ensures FlatFrom(closed + [c], |closed|) == FlatFrom(closed, |closed|)
    ensures FlatFrom(closed + [c], |closed| + 1) == c.exit
    ensures TripsFollowTable(signal, closed + [c]) <==>
      TripsFollowTable(signal, closed) && RoundTrip(signal, FlatFrom(closed, |closed|), c)
  {
    var longer := closed + [c];
    var n := |closed|;
    assert forall m :: 0 <= m < n ==> longer[m] == closed[m];
    assert forall m :: 0 <= m <= n ==> FlatFrom(longer, m) == FlatFrom(closed, m);
    if TripsFollowTable(signal, longer) {
      assert RoundTrip(signal, FlatFrom(longer, n), longer[n]);
      forall m | 0 <= m < n
        ensures RoundTrip(signal, FlatFrom(closed, m), closed[m])
      {
        assert RoundTrip(signal, FlatFrom(longer, m), longer[m]);
      }
    }
  }

  /** Walk obeys the transition table. */
  lemma {:induction false} WalkFollowsTable(signal: seq<Signal>, k: nat)
    requires k <= |signal|
    ensures FollowsTable(signal, k, Walk(signal, k))
  {
    if k > 0 {
      WalkFollowsTable(signal, k - 1);
      var before := Walk(signal, k - 1);
      var flat := FlatFrom(before.closed, |before.closed|);
      match before.open
      case None =>
        if signal[k - 1] == EnterLong {
          assert Walk(signal, k) == Run(before.closed, Some(k));
          assert EntersAt(signal, flat, k);
        } else {
          assert Walk(signal, k) == before;
          assert Absent(signal, EnterLong, flat, k);
        }
      case Some(e) =>
        if signal[k - 1] == ExitLong {
          TripsSnoc(signal, before.closed, Closed(e, k));
          assert Walk(signal, k) == Run(before.closed + [Closed(e, k)], None);
        } else {
          assert Walk(signal, k) == before;
          assert Absent(signal, ExitLong, e, k);
        }
    }
  }

  /** Conversely, the transition table leaves no choice: the run it admits is Walk's. */
  lemma {:induction false} TableDeterminesRun(signal: seq<Signal>, k: nat, run: Run)
    requires k <= |signal|
    requires FollowsTable(signal, k, run)
    ensures run == Walk(signal, k)
  {
    var n := |run.closed|;
    var flat := FlatFrom(run.closed, n);
    if n > 0 {
      assert RoundTrip(signal, FlatFrom(run.closed, n - 1), run.closed[n - 1]);
    }
    if k > 0 {
      match run.open
      case Some(e) =>
        if e == k {
          // the last step entered
          TableDeterminesRun(signal, k - 1, Run(run.closed, None));
        } else {
          // the last step held the position
          TableDeterminesRun(signal, k - 1, run);
        }
      case None =>
        if n > 0 && run.closed[n - 1].exit == k {
          // the last step exited
          var earlier := run.closed[..n - 1];
          var last := run.closed[n - 1];
          assert run.closed == earlier + [last];
          TripsSnoc(signal, earlier, last);
          TableDeterminesRun(signal, k - 1, Run(earlier, Some(last.entry)));
        } else {
          // the last step stayed flat
          TableDeterminesRun(signal, k - 1, run);
        }
    }
  }

  /** Walk is exactly the run the transition table describes. */
  lemma WalkIsTheTableRun(signal: seq<Signal>, k: nat, run: Run)
    requires k <= |signal|
    ensures FollowsTable(signal, k, run) <==> run == Walk(signal, k)
  {
    WalkFollowsTable(signal, k);
    if FollowsTable(signal, k, run) {
      TableDeterminesRun(signal, k, run);
    }
  }

  /** Decisions up to step k depend on the signal of bars before k only. */
  lemma {:induction false} WalkUsesOnlyEarlierSignals(s1: seq<Signal>, s2: seq<Signal>, k: nat)
    requires k <= |s1| && k <= |s2| && s1[..k] == s2[..k]
    ensures Walk(s1, k) == Walk(s2, k)
  {
    if k > 0 {
      assert s1[..k - 1] == s1[..k][..k - 1] && s2[..k - 1] == s2[..k][..k - 1];
      WalkUsesOnlyEarlierSignals(s1, s2, k - 1);
      assert s1[k - 1] == s1[..k][k - 1];
    }
  }

  /** The ledger row of a closed round trip: fills at the opens of its two bars. */
  function ClosedTrade(bars: seq<Bar>, qty: int, c: Closed): (row: Trade)
    requires c.entry < |bars| && c.exit < |bars|
    ensures row.qty == qty && row.exitPrice.Some? && row.exitDate.Some?
    ensures row.pnl == Some(Pnl(row.entryPrice, row.exitPrice.value, qty))
    ensures row.barsHeld == Some(c.exit - c.entry)
  {
    Trade(bars[c.entry].date, bars[c.entry].open, qty, Some(bars[c.exit].date), Some(bars[c.exit].open),
          Some(Pnl(bars[c.entry].open, bars[c.exit].open, qty)), Some(c.exit - c.entry))
  }

  /** The ledger row of a position still open at the end: exit fields blank. */
  function OpenTrade(bars: seq<Bar>, qty: int, e: nat): (row: Trade)
    requires e < |bars|
    ensures row.qty == qty && row.entryDate == bars[e].date && row.entryPrice == bars[e].open
    ensures row.exitDate.None? && row.exitPrice.None? && row.pnl.None? && row.barsHeld.None?
  {
    Trade(bars[e].date, bars[e].open, qty, None, None, None, None)
  }

  predicate ClosedInSeries(closed: seq<Closed>, n: nat)
  {
    forall m :: 0 <= m < |closed| ==> closed[m].entry < n && closed[m].exit < n
  }

  function ClosedTrades(bars: seq<Bar>, qty: int, closed: seq<Closed>): (ts: seq<Trade>)
    requires ClosedInSeries(closed, |bars|)
    ensures |ts| == |closed|
  {
    seq(|closed|, m requires 0 <= m < |closed| => ClosedTrade(bars, qty, closed[m]))
  }

  lemma ClosedTradesAppend(bars: seq<Bar>, qty: int, closed: seq<Closed>, c: Closed)
    requires ClosedInSeries(closed, |bars|) && c.entry < |bars| && c.exit < |bars|
    ensures ClosedInSeries(closed + [c], |bars|)
    ensures ClosedTrades(bars, qty, closed + [c]) == ClosedTrades(bars, qty, closed) + [ClosedTrade(bars, qty, c)]
  {
    assert forall m :: 0 <= m < |closed| ==> (closed + [c])[m] == closed[m];
  }

  /** Loop steps run for i in 0 .. len-2: the last bar has no next open to fill at. */
  function Steps(n: nat): (steps: nat)
    ensures steps < n || steps == 0
    ensures steps + 1 >= n
  {
    if n == 0 then 0 else n - 1
  }

  /** Every bar a run within k < n steps refers to is in a series of n bars. */
  lemma WalkInSeries(signal: seq<Signal>, k: nat, n: nat)
    requires k <= |signal| && (k < n || k == 0)
    ensures ClosedInSeries(Walk(signal, k).closed, n)
    ensures Walk(signal, k).open.Some? ==> Walk(signal, k).open.value < n
    ensures Disjoint(Walk(signal, k), k)
  {
    WalkDisjoint(signal, k);
  }

  /** A run whose every bar index lies in a series of n bars. */
  predicate RunInSeries(run: Run, n: nat)
  {
    ClosedInSeries(run.closed, n) && (run.open.Some? ==> run.open.value < n)
  }

  /** The ledger rows of a run: the closed trades in the order they closed, then an open one if any. */
  function Rows(bars: seq<Bar>, qty: int, run: Run): (rows: seq<Trade>)
    requires RunInSeries(run, |bars|)
    ensures |rows| == |run.closed| + (if run.open.Some? then 1 else 0)
  {
    ClosedTrades(bars, qty, run.closed) + (if run.open.Some? then [OpenTrade(bars, qty, run.open.value)] else [])
  }

  /** The order ledger of a whole series: the rows of the run the loop ends with. */
  function Ledger(bars: seq<Bar>, signal: seq<Signal>, qty: int): (ledger: seq<Trade>)
    requires |signal| == |bars|
  {
    WalkInSeries(signal, Steps(|bars|), |bars|);
    Rows(bars, qty, Walk(signal, Steps(|bars|)))
  }

  /** Row shape: quantity, all-or-nothing exit fields, profit formula, only the last row open. */
  predicate WellFormedRows(rows: seq<Trade>, qty: int)
  {
    && (forall m :: 0 <= m < |rows| ==>
          && rows[m].qty == qty
          && (rows[m].exitPrice.None? <==> rows[m].exitDate.None?)
          && (rows[m].exitPrice.None? <==> rows[m].pnl.None?)
          && (rows[m].exitPrice.None? <==> rows[m].barsHeld.None?))
    && (forall m :: 0 <= m < |rows| && rows[m].exitPrice.Some? ==>
          && rows[m].pnl == Some(Pnl(rows[m].entryPrice, rows[m].exitPrice.value, qty))
          && rows[m].barsHeld.value >= 1)
    && (forall m :: 0 <= m < |rows| && rows[m].exitPrice.None? ==> m == |rows| - 1)
  }

  /** The ledger ends with a position still open. */
  predicate LastRowOpen(rows: seq<Trade>)
  {
    |rows| > 0 && rows[|rows| - 1].exitPrice.None?
  }

  lemma RowsShape(bars: seq<Bar>, qty: int, run: Run, k: nat)
    requires RunInSeries(run, |bars|) && Disjoint(run, k)
    ensures WellFormedRows(Rows(bars, qty, run), qty)
    ensures LastRowOpen(Rows(bars, qty, run)) <==> run.open.Some?
  {
    var rows := Rows(bars, qty, run);
    var n := |run.closed|;
    assert forall m :: 0 <= m < n ==> rows[m] == ClosedTrade(bars, qty, run.closed[m]);
    forall m | 0 <= m < n
      ensures run.closed[m].entry < run.closed[m].exit
    {
      assert FlatFrom(run.closed, m) < run.closed[m].entry;
    }
    assert run.open.Some? ==> rows[n] == OpenTrade(bars, qty, run.open.value);
  }

  /**
   * The shape of every ledger row: the configured quantity; exit fields all
   * present or all blank; a closed row's profit is Pnl(entry price, exit
   * price, qty) over at least one bar; only the last row can be open, and it
   * is open exactly when the loop ends long.
   */
  lemma LedgerShape(bars: seq<Bar>, signal: seq<Signal>, qty: int)
    requires |signal| == |bars|
    ensures WellFormedRows(Ledger(bars, signal, qty), qty)
    ensures LastRowOpen(Ledger(bars, signal, qty)) <==> Walk(signal, Steps(|bars|)).open.Some?
  {
    WalkInSeries(signal, Steps(|bars|), |bars|);
    RowsShape(bars, qty, Walk(signal, Steps(|bars|)), Steps(|bars|));
  }

  /** The `entry_dt` column, the key the ledger is sorted by. */
  function EntryDate(t: Trade): int
  {
    t.entryDate
  }

  /** Each row closes strictly after it opens and strictly before the next row opens. */
  predicate NonOverlapping(ts: seq<Trade>)
  {
    forall m :: 0 <= m < |ts| - 1 ==>
      ts[m].exitDate.Some? && ts[m].entryDate < ts[m].exitDate.value < ts[m + 1].entryDate
  }

  /** The bar at which row m of a run was filled on entry. */
  function EntryBar(run: Run, m: nat): nat
    requires m < |run.closed| || (m == |run.closed| && run.open.Some?)
  {
    if m < |run.closed| then run.closed[m].entry else run.open.value
  }

  /** Row m and the row after it, by bar index: row m closes after it opens and before row m + 1 opens. */
  lemma AdjacentRows(bars: seq<Bar>, qty: int, run: Run, k: nat, m: nat)
    requires RunInSeries(run, |bars|) && Disjoint(run, k)
    requires m + 1 < |Rows(bars, qty, run)|
    ensures m < |run.closed|
    ensures Rows(bars, qty, run)[m].entryDate == bars[run.closed[m].entry].date
    ensures Rows(bars, qty, run)[m].exitDate == Some(bars[run.closed[m].exit].date)
    ensures Rows(bars, qty, run)[m + 1].entryDate == bars[EntryBar(run, m + 1)].date
    ensures run.closed[m].entry < run.closed[m].exit < EntryBar(run, m + 1) < |bars|
  {
    var n := |run.closed|;
    assert Rows(bars, qty, run)[m] == ClosedTrade(bars, qty, run.closed[m]);
    if m + 1 < n {
      assert Rows(bars, qty, run)[m + 1] == ClosedTrade(bars, qty, run.closed[m + 1]);
    } else {
      assert Rows(bars, qty, run)[m + 1] == OpenTrade(bars, qty, run.open.value);
    }
    assert FlatFrom(run.closed, m) < run.closed[m].entry;
    assert FlatFrom(run.closed, m + 1) == run.closed[m].exit;
  }

  /** Entry bars strictly increase from row to row. */
  lemma {:induction false} EntryBarsIncrease(run: Run, k: nat, i: nat, j: nat)
    requires Disjoint(run, k)
    requires i < j && (j < |run.closed| || (j == |run.closed| && run.open.Some?))
    ensures EntryBar(run, i) < EntryBar(run, j)
    decreases j - i
  {
    assert FlatFrom(run.closed, i) < run.closed[i].entry;
    assert EntryBar(run, i) < run.closed[i].exit == FlatFrom(run.closed, i + 1);
    if i + 1 < |run.closed| {
      assert FlatFrom(run.closed, i + 1) < run.closed[i + 1].entry;
    }
    assert FlatFrom(run.closed, i + 1) < EntryBar(run, i + 1);
    if i + 1 < j {
      EntryBarsIncrease(run, k, i + 1, j);
    }
  }

  /** Row m was filled on entry at the open of its entry bar. */
  lemma RowEntry(bars: seq<Bar>, qty: int, run: Run, m: nat)
    requires RunInSeries(run, |bars|) && m < |Rows(bars, qty, run)|
    ensures EntryBar(run, m) < |bars|
    ensures Rows(bars, qty, run)[m].entryDate == bars[EntryBar(run, m)].date
    ensures Rows(bars, qty, run)[m].entryPrice == bars[EntryBar(run, m)].open
  {
    if m < |run.closed| {
      assert Rows(bars, qty, run)[m] == ClosedTrade(bars, qty, run.closed[m]);
    } else {
      assert Rows(bars, qty, run)[m] == OpenTrade(bars, qty, run.open.value);
    }
  }

  lemma RowsInEntryOrder(bars: seq<Bar>, qty: int, run: Run, k: nat)
    requires RunInSeries(run, |bars|) && Disjoint(run, k)
    ensures DatesAscending(bars) ==> SortedBy(Rows(bars, qty, run), EntryDate)
    ensures DatesStrictlyAscending(bars) ==> NonOverlapping(Rows(bars, qty, run))
  {
    var rows := Rows(bars, qty, run);
    if DatesAscending(bars) {
      forall i, j | 0 <= i < j < |rows|
        ensures EntryDate(rows[i]) <= EntryDate(rows[j])
      {
        RowEntry(bars, qty, run, i);
        RowEntry(bars, qty, run, j);
        EntryBarsIncrease(run, k, i, j);
        assert BarDate(bars[EntryBar(run, i)]) <= BarDate(bars[EntryBar(run, j)]);
      }
    }
    if DatesStrictlyAscending(bars) {
      forall m | 0 <= m < |rows| - 1
        ensures rows[m].exitDate.Some? && rows[m].entryDate < rows[m].exitDate.value < rows[m + 1].entryDate
      {
        AdjacentRows(bars, qty, run, k, m);
      }
    }
  }

  /**
   * Trades come out in entry order: on a date-sorted series the ledger is
   * sorted by entry date; with distinct dates trades never overlap.
   */
  lemma LedgerInEntryOrder(bars: seq<Bar>, signal: seq<Signal>, qty: int)
    requires |signal| == |bars|
    ensures DatesAscending(bars) ==> SortedBy(Ledger(bars, signal, qty), EntryDate)
    ensures DatesStrictlyAscending(bars) ==> NonOverlapping(Ledger(bars, signal, qty))
  {
    WalkInSeries(signal, Steps(|bars|), |bars|);
    RowsInEntryOrder(bars, qty, Walk(signal, Steps(|bars|)), Steps(|bars|));
  }

  /** Row `row` was closed at the open of bar x, the bar after an exit signal. */
  predicate ExitsAt(bars: seq<Bar>, signal: seq<Signal>, row: Trade, x: int)
    requires |signal| == |bars|
  {
    && 0 < x < |bars| && signal[x - 1] == ExitLong
    && row.exitPrice == Some(bars[x].open) && row.exitDate == Some(bars[x].date)
  }

  /**
   * Every ledger row is filled at the open of the bar after an entry signal,
   * and a closed row at the open of the bar after an exit signal, barsHeld
   * bars later.
   */
  lemma LedgerFillsFollowSignals(bars: seq<Bar>, signal: seq<Signal>, qty: int, m: nat)
    requires |signal| == |bars| && m < |Ledger(bars, signal, qty)|
    ensures var row := Ledger(bars, signal, qty)[m];
      exists e :: 0 < e < |bars| && signal[e - 1] == EnterLong
        && row.entryPrice == bars[e].open && row.entryDate == bars[e].date
        && (row.barsHeld.Some? ==> ExitsAt(bars, signal, row, e + row.barsHeld.value))
  {
    var k := Steps(|bars|);
    var run := Walk(signal, k);
    WalkInSeries(signal, k, |bars|);
    WalkFollowsTable(signal, k);
    var row := Ledger(bars, signal, qty)[m];
    var e := EntryBar(run, m);
    if m < |run.closed| {
      assert row == ClosedTrade(bars, qty, run.closed[m]);
      assert RoundTrip(signal, FlatFrom(run.closed, m), run.closed[m]);
    } else {
      assert row == OpenTrade(bars, qty, run.open.value);
    }
    assert 0 < e < |bars| && signal[e - 1] == EnterLong;
  }

  /** Without an entry signal in the first k steps nothing is ever traded. */
  lemma {:induction false} NoEntryNoTrades(signal: seq<Signal>, k: nat)
    requires k <= |signal|
    requires forall j :: 0 <= j < k ==> signal[j] != EnterLong
    ensures Walk(signal, k) == Run([], None)
  {
    if k > 0 {
      NoEntryNoTrades(signal, k - 1);
    }
  }

  /**
   * The simulation loop: walks bars 0 .. len-2, fills at the next bar's open,
   * appends a closed trade on each exit and flushes a still-open position as a
   * trade with blank exit fields.
   */
  method Simulate(bars: seq<Bar>, signal: seq<Signal>, qty: int) returns (orders: seq<Trade>)
    requires |signal| == |bars|
    ensures orders == Ledger(bars, signal, qty)
  {
    orders := [];
    var position := Flat;
    var i := 0;
    while i < |bars| - 1
      invariant 0 <= i <= Steps(|bars|)
      invariant ClosedInSeries(Walk(signal, i).closed, |bars|)
      invariant orders == ClosedTrades(bars, qty, Walk(signal, i).closed)
      invariant position.Long? <==> Walk(signal, i).open.Some?
      invariant position.Long? ==>
        && position.entryIdx == Walk(signal, i).open.value
        && position.entryIdx < |bars|
        && position.entryPrice == bars[position.entryIdx].open
        && position.entryDate == bars[position.entryIdx].date
    {
      ghost var run := Walk(signal, i);
      var sig := signal[i];
      var nextOpen := bars[i + 1].open;
      var nextDate := bars[i + 1].date;
      if position.Flat? && sig == EnterLong {
        position := Long(nextOpen, nextDate, i + 1);
      } else if position.Long? && sig == ExitLong {
        var exitPrice := nextOpen;
        var exitDate := nextDate;
        var barsHeld := (i + 1) - position.entryIdx;
        var pnl := (exitPrice - position.entryPrice) * qty as real;
        assert pnl == Pnl(position.entryPrice, exitPrice, qty);
        assert Walk(signal, i + 1).closed == run.closed + [Closed(position.entryIdx, i + 1)];
        ClosedTradesAppend(bars, qty, run.closed, Closed(position.entryIdx, i + 1));
        orders := orders + [Trade(position.entryDate, position.entryPrice, qty,
                                  Some(exitDate), Some(exitPrice), Some(pnl), Some(barsHeld))];
        position := Flat;
      }
      i := i + 1;
    }
    if position.Long? {
      orders := orders + [Trade(position.entryDate, position.entryPrice, qty, None, None, None, None)];
    }
  }
}
