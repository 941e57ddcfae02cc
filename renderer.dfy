/** The metric helpers of the prompt renderer: total return percent,
    initial-balance inference from closed orders, and the Sharpe ratio of the
    closed orders. The live-exchange metrics reuse the same three steps. */
module Renderer {
  import opened Wrappers
  import opened RealSeqs
  import opened Sharpe

  /** The two PnL fields of a closed order as the exchange reports them;
      `None` is a missing, null or non-numeric field. */
  datatype ClosedOrder = ClosedOrder(realizedPnl: Option<real>, pnl: Option<real>)

  /** Whether a numeric field counts as truthy in `a || b`. */
  predicate Truthy(x: Option<real>)
  {
    x.Some? && x.value != 0.0
  }

  /** `order.realized_pnl || order.pnl || 0`. */
  function PnlOf(o: ClosedOrder): real
  {
    if Truthy(o.realizedPnl) then o.realizedPnl.value
    else if Truthy(o.pnl) then o.pnl.value
    else 0.0
  }

  /** The per-order PnL the source sums and accumulates. */
  function Pnls(orders: seq<ClosedOrder>): (r: seq<real>)
    ensures |r| == |orders|
    ensures forall i :: 0 <= i < |orders| ==> r[i] == PnlOf(orders[i])
  {
    seq(|orders|, i requires 0 <= i < |orders| => PnlOf(orders[i]))
  }

  /** The `reduce` of the per-order PnL. */
  function TotalPnl(orders: seq<ClosedOrder>): real
  {
    Sum(Pnls(orders))
  }

  /** Adding an order adds its PnL to the total. */
  lemma TotalPnlAppend(orders: seq<ClosedOrder>, o: ClosedOrder)
    ensures TotalPnl(orders + [o]) == TotalPnl(orders) + PnlOf(o)
  {
    assert Pnls(orders + [o]) == Pnls(orders) + [PnlOf(o)];
    SumAppend(Pnls(orders), PnlOf(o));
  }

  /** A missing or zero `realized_pnl` falls through to `pnl`; the order
      counts as 0 only when both are missing or zero. */
  lemma PnlOfZeroIff(o: ClosedOrder)
    ensures PnlOf(o) == 0.0 <==> !Truthy(o.realizedPnl) && !Truthy(o.pnl)
    ensures Truthy(o.realizedPnl) ==> PnlOf(o) == o.realizedPnl.value
  {
  }

  /** `calculateTotalReturnPercent`: percentage growth over the initial
      balance, 0 when there is no initial balance. */
  function CalculateTotalReturnPercent(accountValue: real, initialBalance: real): (p: real)
  {
    if initialBalance == 0.0 then 0.0
    else (accountValue - initialBalance) / initialBalance * 100.0
  }

  /** The percentage is zero exactly when there is no initial balance or the
      value has not moved; from a positive balance it is positive exactly
      on a gain. */
  lemma ReturnPercentZeroIff(accountValue: real, initialBalance: real)
    ensures CalculateTotalReturnPercent(accountValue, initialBalance) == 0.0
        <==> initialBalance == 0.0 || accountValue == initialBalance
    ensures initialBalance > 0.0 ==>
      (CalculateTotalReturnPercent(accountValue, initialBalance) > 0.0 <==> accountValue > initialBalance)
  {
    if initialBalance != 0.0 {
      var d := accountValue - initialBalance;
      var q := d / initialBalance;
      assert q * initialBalance == d;
      if initialBalance > 0.0 {
        assert d > 0.0 ==> q > 0.0;
        assert d <= 0.0 ==> q <= 0.0;
      }
    }
  }

  /** The balance plus the percentage return gives the value back. */
  lemma ReturnPercentRecoversValue(accountValue: real, initialBalance: real)
    requires initialBalance != 0.0
    ensures initialBalance + initialBalance * CalculateTotalReturnPercent(accountValue, initialBalance) / 100.0
      == accountValue
  {
    var d := accountValue - initialBalance;
    var q := d / initialBalance;
    assert q * initialBalance == d;
    assert initialBalance * (q * 100.0) / 100.0 == d;
  }

  /** `calculateInitialBalance`: the current balance minus all realized
      PnL, or the current balance itself without orders or when that
      difference is not positive. */
  function CalculateInitialBalance(currentBalance: real, orders: seq<ClosedOrder>): real
  {
    if |orders| == 0 then currentBalance
    else
      var calculated := currentBalance - TotalPnl(orders);
      if calculated > 0.0 then calculated else currentBalance
  }

  /** The inferred balance either falls back to the current balance, or is
      a positive balance that the realized PnL grows into the current one. */
  lemma InitialBalanceCases(currentBalance: real, orders: seq<ClosedOrder>)
    ensures var b := CalculateInitialBalance(currentBalance, orders);
      b == currentBalance || (b > 0.0 && b + TotalPnl(orders) == currentBalance)
    ensures |orders| == 0 ==> CalculateInitialBalance(currentBalance, orders) == currentBalance
    ensures |orders| > 0 && currentBalance - TotalPnl(orders) > 0.0 ==>
      CalculateInitialBalance(currentBalance, orders) + TotalPnl(orders) == currentBalance
  {
  }

  /** A positive current balance always yields a positive initial balance. */
  lemma InitialBalancePositive(currentBalance: real, orders: seq<ClosedOrder>)
    requires currentBalance > 0.0
    ensures CalculateInitialBalance(currentBalance, orders) > 0.0
  {
  }

  /** `calculateSharpeRatio`: no orders give no ratio; otherwise the loop
      builds the cumulative-return series and a ratio is reported unless its
      standard deviation is 0. */
  method CalculateSharpeRatio(orders: seq<ClosedOrder>, initialBalance: real) returns (s: SharpeValue)
    requires |orders| > 0 ==> initialBalance != 0.0
    ensures |orders| > 0 ==> s == SharpeOf(Returns(Pnls(orders), initialBalance))
    ensures |orders| == 0 ==> s == NoSharpe
    ensures s.Ratio? <==> exists j :: 1 <= j < |orders| && PnlOf(orders[j]) != 0.0
    ensures s.Ratio? ==> s.variance > 0.0
  {
    if |orders| == 0 {
      return NoSharpe;
    }
    s := ComputeSharpe(Pnls(orders), initialBalance);
    OrdersSharpeDefinedIff(orders, initialBalance);
  }

  /** A ratio is reported exactly when some order after the first has a
      non-zero PnL. */
  lemma OrdersSharpeDefinedIff(orders: seq<ClosedOrder>, initialBalance: real)
    requires initialBalance != 0.0
    ensures SharpeOf(Returns(Pnls(orders), initialBalance)).Ratio?
        <==> exists j :: 1 <= j < |orders| && PnlOf(orders[j]) != 0.0
  {
    var p := Pnls(orders);
    SharpeDefinedIff(p, initialBalance);
    assert (exists j :: 1 <= j < |p| && p[j] != 0.0) <==> (exists j :: 1 <= j < |orders| && PnlOf(orders[j]) != 0.0);
  }
}
