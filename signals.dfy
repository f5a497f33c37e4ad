/** The signal generator: crossover detection and the one-bar lag. */
module Signals {
  import opened Series
  import opened Indicators

  /** The per-bar signal: +1, -1 and 0 in the backtest's encoding. */
  datatype Signal = Hold | EnterLong | ExitLong

  /** `sma_fast > sma_slow` on one bar: a comparison with an undefined average is false. */
  predicate Above(fast: Option<real>, slow: Option<real>)
  {
    fast.Some? && slow.Some? && fast.value > slow.value
  }

  /** The bar-by-bar comparison: strictly above, and false wherever an average is undefined. */
  function FastAbove(fastSma: seq<Option<real>>, slowSma: seq<Option<real>>): (gt: seq<bool>)
    requires |fastSma| == |slowSma|
    ensures |gt| == |fastSma|
    ensures forall i :: 0 <= i < |gt| && (fastSma[i].None? || slowSma[i].None?) ==> !gt[i]
    ensures forall i :: 0 <= i < |gt| && fastSma[i].Some? && slowSma[i].Some? ==>
      (gt[i] <==> fastSma[i].value > slowSma[i].value)
  {
    seq(|fastSma|, i requires 0 <= i < |fastSma| => Above(fastSma[i], slowSma[i]))
  }

  function Not(a: seq<bool>): (r: seq<bool>)
    ensures |r| == |a|
  {
    seq(|a|, i requires 0 <= i < |a| => !a[i])
  }

  function And(a: seq<bool>, b: seq<bool>): (r: seq<bool>)
    requires |a| == |b|
    ensures |r| == |a|
  {
    seq(|a|, i requires 0 <= i < |a| => a[i] && b[i])
  }

  /** `shift(1)` with a fill value: every element moves one bar later, the first bar gets `fill`. */
  function Shift<T>(s: seq<T>, fill: T): (r: seq<T>)
    ensures |r| == |s|
    ensures |s| > 0 ==> r[0] == fill
    ensures forall i :: 0 < i < |s| ==> r[i] == s[i - 1]
  {
    if |s| == 0 then [] else [fill] + s[..|s| - 1]
  }

  /** Bars where the comparison has just turned true; bar 0 never qualifies. */
  function CrossUp(gt: seq<bool>): (r: seq<bool>)
    ensures |r| == |gt|
    ensures forall i :: 0 <= i < |gt| ==> (r[i] <==> 0 < i && gt[i] && !gt[i - 1])
  {
    And(gt, Shift(Not(gt), false))
  }

  /** Bars where the comparison has just turned false; bar 0 never qualifies. */
  function CrossDown(gt: seq<bool>): (r: seq<bool>)
    ensures |r| == |gt|
    ensures forall i :: 0 <= i < |gt| ==> (r[i] <==> 0 < i && !gt[i] && gt[i - 1])
  {
    And(Not(gt), Shift(gt, false))
  }

  /**
   * The raw signal: enter where the fast average has just moved strictly above
   * the slow one, exit where it has just stopped being above it.
   */
  function RawSignal(gt: seq<bool>): (r: seq<Signal>)
    ensures |r| == |gt|
    ensures forall i :: 0 <= i < |gt| ==> (r[i] == EnterLong <==> 0 < i && gt[i] && !gt[i - 1])
    ensures forall i :: 0 <= i < |gt| ==> (r[i] == ExitLong <==> 0 < i && !gt[i] && gt[i - 1])
    ensures forall i :: 0 <= i < |gt| ==> (r[i] != Hold <==> 0 < i && gt[i] != gt[i - 1])
  {
    var up, down := CrossUp(gt), CrossDown(gt);
    seq(|gt|, i requires 0 <= i < |gt| =>
      if up[i] then EnterLong else if down[i] then ExitLong else Hold)
  }

  /** `raw_signal.shift(1).fillna(0)`: a signal is acted on one bar after the bar that raised it. */
  function LaggedSignal(raw: seq<Signal>): (r: seq<Signal>)
    ensures |r| == |raw|
    ensures |raw| > 0 ==> r[0] == Hold
    ensures forall i :: 0 < i < |raw| ==> r[i] == raw[i - 1]
  {
    Shift(raw, Hold)
  }

  /** The signal the position simulator acts on, bar by bar. */
  function SignalSeries(closes: seq<real>, fast: nat, slow: nat): (sig: seq<Signal>)
    requires fast > 0 && slow > 0
    ensures |sig| == |closes|
    ensures forall i :: 0 <= i < |closes| ==>
      (sig[i] == EnterLong <==>
         1 < i && Above(Sma(closes, fast)[i - 1], Sma(closes, slow)[i - 1])
         && !Above(Sma(closes, fast)[i - 2], Sma(closes, slow)[i - 2]))
    ensures forall i :: 0 <= i < |closes| ==>
      (sig[i] == ExitLong <==>
         1 < i && !Above(Sma(closes, fast)[i - 1], Sma(closes, slow)[i - 1])
         && Above(Sma(closes, fast)[i - 2], Sma(closes, slow)[i - 2]))
  {
    LaggedSignal(RawSignal(FastAbove(Sma(closes, fast), Sma(closes, slow))))
  }

  /**
   * An entry acted on at bar i was raised at bar i - 1, where both averages
   * were defined; so it needs at least max(fast, slow) earlier bars, and never
   * happens before bar 2.
   */
  lemma EntryNeedsBothAverages(closes: seq<real>, fast: nat, slow: nat, i: nat)
    requires fast > 0 && slow > 0 && i < |closes|
    requires SignalSeries(closes, fast, slow)[i] == EnterLong
    ensures i >= 2 && i >= fast && i >= slow
  {
    var fs, ss := Sma(closes, fast), Sma(closes, slow);
    var gt := FastAbove(fs, ss);
    assert i > 0;
    assert RawSignal(gt)[i - 1] == EnterLong;
    assert gt[i - 1];
    assert Above(fs[i - 1], ss[i - 1]);
  }

  /** With equal windows the two averages coincide, so no signal ever fires. */
  lemma EqualWindowsNeverSignal(closes: seq<real>, w: nat)
    requires w > 0
    ensures forall i :: 0 <= i < |closes| ==> SignalSeries(closes, w, w)[i] == Hold
  {
    var sma := Sma(closes, w);
    var gt := FastAbove(sma, sma);
    assert forall i :: 0 <= i < |closes| ==> !gt[i];
  }

  /**
   * At the first bar where both averages exist the previous comparison counts
   * as "not above", so that bar raises an entry exactly when fast is above slow.
   */
  lemma FirstComparableBarMayEnter(closes: seq<real>, fast: nat, slow: nat)
    requires fast > 0 && slow > 0
    requires var j := if fast >= slow then fast - 1 else slow - 1; 1 <= j < |closes|
    ensures var j := if fast >= slow then fast - 1 else slow - 1;
      var fs, ss := Sma(closes, fast), Sma(closes, slow);
      RawSignal(FastAbove(fs, ss))[j] == EnterLong <==> fs[j].value > ss[j].value
  {
    var j := if fast >= slow then fast - 1 else slow - 1;
    var fs, ss := Sma(closes, fast), Sma(closes, slow);
    var gt := FastAbove(fs, ss);
    assert fs[j - 1].None? || ss[j - 1].None?;
    assert !gt[j - 1];
    assert fs[j].Some? && ss[j].Some?;
    assert gt[j] == (fs[j].value > ss[j].value);
  }

  /**
   * No look-ahead: the signal acted on at bar i is fixed by the closes of the
   * bars before i; bar i's own close and everything later play no part.
   */
  lemma {:induction false} SignalUsesOnlyEarlierCloses(c1: seq<real>, c2: seq<real>, fast: nat, slow: nat, i: nat)
    requires fast > 0 && slow > 0 && i < |c1| && i < |c2|
    requires c1[..i] == c2[..i]
    ensures SignalSeries(c1, fast, slow)[i] == SignalSeries(c2, fast, slow)[i]
  {
    if i > 0 {
      var gt1 := FastAbove(Sma(c1, fast), Sma(c1, slow));
      var gt2 := FastAbove(Sma(c2, fast), Sma(c2, slow));
      forall j | 0 <= j < i
        ensures gt1[j] == gt2[j]
      {
        assert c1[..j + 1] == c1[..i][..j + 1] && c2[..j + 1] == c2[..i][..j + 1];
        SmaUsesOnlyPastCloses(c1, c2, fast, j);
        SmaUsesOnlyPastCloses(c1, c2, slow, j);
      }
      assert RawSignal(gt1)[i - 1] == RawSignal(gt2)[i - 1];
    }
  }
}
