/** The indicator engine: rolling simple moving averages over the closes. */
module Indicators {
  import opened Series

  /** Sum of a sequence of prices, accumulated from the left. */
  function Sum(s: seq<real>): real
  {
    if |s| == 0 then 0.0 else Sum(s[..|s| - 1]) + s[|s| - 1]
  }

  /** Arithmetic mean of a non-empty window. */
  function Mean(s: seq<real>): real
    requires |s| > 0
  {
    Sum(s) / |s| as real
  }

  lemma {:induction false} SumFirst(s: seq<real>)
    requires |s| > 0
    ensures Sum(s) == s[0] + Sum(s[1..])
  {
    if |s| == 1 {
      assert s[..0] == [] && s[1..] == [];
    } else {
      var init := s[..|s| - 1];
      SumFirst(init);
      assert init[1..] == s[1..][..|s| - 2];
      assert s[1..][|s| - 2] == s[|s| - 1];
    }
  }

  /**
   * Window sum kept incrementally, as a rolling mean is computed: after the
   * first k closes it holds the sum of the last (at most) w of them, adding the
   * newest close and dropping the one that leaves the window.
   */
  function WindowSum(closes: seq<real>, w: nat, k: nat): real
    requires w > 0 && k <= |closes|
  {
    if k == 0 then 0.0
    else WindowSum(closes, w, k - 1) + closes[k - 1] - (if k > w then closes[k - 1 - w] else 0.0)
  }

  /** The running sum equals a fresh sum over the current window. */
  lemma {:induction false} WindowSumIsFreshSum(closes: seq<real>, w: nat, k: nat)
    requires w > 0 && k <= |closes|
    ensures WindowSum(closes, w, k) == Sum(closes[(if k >= w then k - w else 0)..k])
  {
    if k > 0 {
      WindowSumIsFreshSum(closes, w, k - 1);
      var now := closes[(if k >= w then k - w else 0)..k];
      assert now[..|now| - 1] == closes[(if k >= w then k - w else 0)..k - 1];
      if k > w {
        var before := closes[k - 1 - w..k - 1];
        SumFirst(before);
        assert before[1..] == closes[k - w..k - 1];
      } else {
        assert closes[(if k - 1 >= w then k - 1 - w else 0)..k - 1] == closes[0..k - 1];
      }
    }
  }

  lemma WindowSumsAreFreshSums(closes: seq<real>, w: nat)
    requires w > 0
    ensures forall k :: 0 <= k <= |closes| ==>
      WindowSum(closes, w, k) == Sum(closes[(if k >= w then k - w else 0)..k])
  {
    forall k | 0 <= k <= |closes|
      ensures WindowSum(closes, w, k) == Sum(closes[(if k >= w then k - w else 0)..k])
    {
      WindowSumIsFreshSum(closes, w, k);
    }
  }

  /**
   * `close.rolling(window=w, min_periods=w).mean()`: undefined until w closes
   * are available, then the mean of the last w closes.
   */
  function Sma(closes: seq<real>, w: nat): (r: seq<Option<real>>)
    requires w > 0
    ensures |r| == |closes|
    ensures forall i :: 0 <= i < |closes| ==> (r[i].Some? <==> i >= w - 1)
    ensures forall i :: w - 1 <= i < |closes| ==> r[i] == Some(Mean(closes[i + 1 - w..i + 1]))
  {
    WindowSumsAreFreshSums(closes, w);
    seq(|closes|, i requires 0 <= i < |closes| =>
      if i + 1 >= w then Some(WindowSum(closes, w, i + 1) / w as real) else None)
  }

  /** The average at bar i is fixed by the closes up to and including bar i. */
  lemma SmaUsesOnlyPastCloses(c1: seq<real>, c2: seq<real>, w: nat, i: nat)
    requires w > 0 && i < |c1| && i < |c2|
    requires c1[..i + 1] == c2[..i + 1]
    ensures Sma(c1, w)[i] == Sma(c2, w)[i]
  {
    if i >= w - 1 {
      assert c1[i + 1 - w..i + 1] == c1[..i + 1][i + 1 - w..];
      assert c2[i + 1 - w..i + 1] == c2[..i + 1][i + 1 - w..];
    }
  }
}
