/** The Sharpe ratio of a run of closed trades, shared by the ledger's
    metrics, the live-exchange metrics and the prompt renderer: returns are
    the CUMULATIVE realized PnL after each trade divided by the initial
    balance, and the ratio is their mean over their population standard
    deviation. */
module Sharpe {
  import opened RealSeqs

  /** The ratio `avgReturn / sqrt(variance)` with `variance > 0`, or
      `NoSharpe` when the standard deviation is 0 (the callers then report 0).
      The square root itself is left symbolic. */
  datatype SharpeValue = NoSharpe | Ratio(avgReturn: real, variance: real)

  /** The return series: after trade `i`, the cumulative PnL of trades
      `0..i` over the initial balance. */
  function Returns(pnls: seq<real>, initial: real): (r: seq<real>)
    requires initial != 0.0
    ensures |r| == |pnls|
  {
    if |pnls| == 0 then [] else Returns(pnls[..|pnls| - 1], initial) + [Sum(pnls) / initial]
  }

  /** Mean over standard deviation of a return series. */
  function SharpeOf(series: seq<real>): SharpeValue
  {
    if |series| == 0 then NoSharpe
    else
      var variance := Variance(series);
      if variance == 0.0 then NoSharpe else Ratio(Mean(series), variance)
  }

  /** The return-series loop and the mean/variance folds of the source. */
  method ComputeSharpe(pnls: seq<real>, initial: real) returns (s: SharpeValue)
    requires initial != 0.0
    ensures s == SharpeOf(Returns(pnls, initial))
    ensures s.Ratio? ==> s.variance > 0.0
  {
    var series: seq<real> := [];
    var cumulativePnL := 0.0;
    for i := 0 to |pnls|
      invariant cumulativePnL == Sum(pnls[..i])
      invariant series == Returns(pnls[..i], initial)
    {
      cumulativePnL := cumulativePnL + pnls[i];
      assert pnls[..i + 1][..i] == pnls[..i];
      var orderReturn := cumulativePnL / initial;
      series := series + [orderReturn];
    }
    assert pnls[..|pnls|] == pnls;
    s := NoSharpe;
    if |series| > 0 {
      var avgReturn := Sum(series) / (|series| as real);
      var variance := SumSquaredDeviations(series, avgReturn) / (|series| as real);
      VarianceNonNegative(series);
      if variance != 0.0 {
        s := Ratio(avgReturn, variance);
      }
    }
  }

  lemma {:induction false} ReturnsElements(pnls: seq<real>, initial: real)
    requires initial != 0.0
    ensures forall i :: 0 <= i < |pnls| ==> Returns(pnls, initial)[i] == Sum(pnls[..i + 1]) / initial
  {
    if |pnls| > 0 {
      var p := pnls[..|pnls| - 1];
      ReturnsElements(p, initial);
      forall i | 0 <= i < |p| ensures Returns(pnls, initial)[i] == Sum(pnls[..i + 1]) / initial {
        assert p[..i + 1] == pnls[..i + 1];
      }
      assert pnls[..|pnls|] == pnls;
    }
  }

  /** Consecutive returns differ by the later trade's PnL over the initial
      balance. */
  lemma ReturnsStep(pnls: seq<real>, initial: real, i: nat)
    requires initial != 0.0 && 1 <= i < |pnls|
    ensures Returns(pnls, initial)[i] == Returns(pnls, initial)[i - 1] + pnls[i] / initial
  {
    ReturnsElements(pnls, initial);
    assert pnls[..i + 1][..i] == pnls[..i];
    assert Sum(pnls[..i + 1]) == Sum(pnls[..i]) + pnls[i];
  }

  lemma {:induction false} ConstantReturnsWhenNoLaterPnl(pnls: seq<real>, initial: real, i: nat)
    requires initial != 0.0 && i < |pnls|
    requires forall j :: 1 <= j < |pnls| ==> pnls[j] == 0.0
    ensures Returns(pnls, initial)[i] == Returns(pnls, initial)[0]
  {
    if i > 0 {
      ConstantReturnsWhenNoLaterPnl(pnls, initial, i - 1);
      ReturnsStep(pnls, initial, i);
    }
  }

  /** Every return equals the first. */
  predicate FlatReturns(pnls: seq<real>, initial: real)
    requires initial != 0.0
  {
    forall i :: 0 <= i < |pnls| ==> Returns(pnls, initial)[i] == Returns(pnls, initial)[0]
  }

  /** Every trade after the first realized nothing. */
  predicate NoLaterPnl(pnls: seq<real>)
  {
    forall j :: 1 <= j < |pnls| ==> pnls[j] == 0.0
  }

  lemma FlatReturnsWhenNoLaterPnl(pnls: seq<real>, initial: real)
    requires initial != 0.0 && NoLaterPnl(pnls)
    ensures FlatReturns(pnls, initial)
  {
    forall i | 0 <= i < |pnls| ensures Returns(pnls, initial)[i] == Returns(pnls, initial)[0] {
      ConstantReturnsWhenNoLaterPnl(pnls, initial, i);
    }
  }

  lemma NoLaterPnlWhenFlatReturns(pnls: seq<real>, initial: real)
    requires initial != 0.0 && |pnls| > 0 && FlatReturns(pnls, initial)
    ensures NoLaterPnl(pnls)
  {
    var r := Returns(pnls, initial);
    forall j | 1 <= j < |pnls| ensures pnls[j] == 0.0 {
      ReturnsStep(pnls, initial, j);
      assert r[j] == r[j - 1];
      var q := pnls[j] / initial;
      assert q == 0.0;
      assert pnls[j] == q * initial;
    }
  }

  /** The return series is flat exactly when every trade after the first
      realized nothing. */
  lemma ReturnsConstantIff(pnls: seq<real>, initial: real)
    requires initial != 0.0 && |pnls| > 0
    ensures FlatReturns(pnls, initial) <==> NoLaterPnl(pnls)
  {
    if NoLaterPnl(pnls) {
      FlatReturnsWhenNoLaterPnl(pnls, initial);
    } else if FlatReturns(pnls, initial) {
      NoLaterPnlWhenFlatReturns(pnls, initial);
      assert false;
    }
  }

  /** A ratio is reported exactly when some trade after the first has a
      non-zero PnL. In particular a run of trades that all realize the same
      non-zero PnL does have a ratio: the cumulative series grows. */
  lemma SharpeDefinedIff(pnls: seq<real>, initial: real)
    requires initial != 0.0
    ensures SharpeOf(Returns(pnls, initial)).Ratio? <==> exists j :: 1 <= j < |pnls| && pnls[j] != 0.0
  {
    if |pnls| > 0 {
      var r := Returns(pnls, initial);
      ReturnsConstantIff(pnls, initial);
      VarianceZeroIffConstant(r);
    }
  }

  lemma {:induction false} SumPrefixNonNegative(pnls: seq<real>, i: nat)
    requires i <= |pnls|
    requires forall j :: 0 <= j < |pnls| ==> pnls[j] >= 0.0
    ensures Sum(pnls[..i]) >= 0.0
  {
    var p := pnls[..i];
    assert forall j :: 0 <= j < |p| ==> p[j] == pnls[j];
    SumNonNegative(p);
  }

  /** When every trade gained (and the balance is positive) the reported
      ratio is not negative. */
  lemma SharpeNonNegativeWhenAllGains(pnls: seq<real>, initial: real)
    requires initial > 0.0
    requires forall j :: 0 <= j < |pnls| ==> pnls[j] >= 0.0
    ensures SharpeOf(Returns(pnls, initial)).Ratio? ==> SharpeOf(Returns(pnls, initial)).avgReturn >= 0.0
  {
    var r := Returns(pnls, initial);
    ReturnsElements(pnls, initial);
    forall i | 0 <= i < |r| ensures r[i] >= 0.0 {
      SumPrefixNonNegative(pnls, i + 1);
    }
    if |r| > 0 {
      MeanNonNegative(r);
    }
  }
}
