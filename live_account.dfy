/** Metrics of the live exchange account: cash, crypto holdings and account
    value from the portfolio items, then initial balance, total return and
    Sharpe ratio from the closed orders. */
module LiveAccount {
  import opened Wrappers
  import opened RealSeqs
  import opened Sharpe
  import opened Renderer

  /** One portfolio row as fetched; `None` is a missing field, and for the
      numeric fields also one that does not parse as a number. */
  datatype PortfolioItem = PortfolioItem(currency: Option<string>, mainBalance: Option<real>,
                                         currentValue: Option<real>)

  /** The fiat currencies excluded from the crypto value. */
  const FIAT_CURRENCIES: seq<string> := ["INR", "USD", "USDT"]

  /** A holding counted as crypto: a non-empty currency that is not fiat. */
  predicate IsCrypto(item: PortfolioItem)
  {
    item.currency.Some? && item.currency.value != "" && item.currency.value !in FIAT_CURRENCIES
  }

  predicate IsInr(item: PortfolioItem)
  {
    item.currency == Some("INR")
  }

  /** `parseFloat(find(currency === 'INR')?.main_balance) || 0`. */
  function AvailableCash(items: seq<PortfolioItem>): real
  {
    if |items| == 0 then 0.0
    else if IsInr(items[0]) then items[0].mainBalance.GetOr(0.0)
    else AvailableCash(items[1..])
  }

  /** The cash is the balance of the first INR row, and 0 without one. */
  lemma {:induction false} AvailableCashIsFirstInr(items: seq<PortfolioItem>)
    ensures (forall i :: 0 <= i < |items| ==> !IsInr(items[i])) ==> AvailableCash(items) == 0.0
    ensures forall i :: 0 <= i < |items| && IsInr(items[i]) && (forall j :: 0 <= j < i ==> !IsInr(items[j])) ==>
      AvailableCash(items) == items[i].mainBalance.GetOr(0.0)
  {
    if |items| > 0 {
      var rest := items[1..];
      AvailableCashIsFirstInr(rest);
      assert forall i :: 1 <= i < |items| ==> items[i] == rest[i - 1];
      if !IsInr(items[0]) {
        forall i | 0 <= i < |items| && IsInr(items[i]) && (forall j :: 0 <= j < i ==> !IsInr(items[j]))
          ensures AvailableCash(items) == items[i].mainBalance.GetOr(0.0)
        {
          assert i >= 1;
          assert forall j :: 0 <= j < i - 1 ==> !IsInr(rest[j]) by {
            forall j | 0 <= j < i - 1 ensures !IsInr(rest[j]) {
              assert rest[j] == items[j + 1];
            }
          }
          assert IsInr(rest[i - 1]);
        }
        if forall i :: 0 <= i < |items| ==> !IsInr(items[i]) {
          assert forall i :: 0 <= i < |rest| ==> !IsInr(rest[i]) by {
            forall i | 0 <= i < |rest| ensures !IsInr(rest[i]) {
              assert rest[i] == items[i + 1];
            }
          }
        }
      }
    }
  }

  /** The `current_value` of each crypto row, in order. */
  function CryptoValues(items: seq<PortfolioItem>): seq<real>
  {
    if |items| == 0 then []
    else
      var last := items[|items| - 1];
      CryptoValues(items[..|items| - 1]) + (if IsCrypto(last) then [last.currentValue.GetOr(0.0)] else [])
  }

  /** The filter-then-reduce over crypto rows. */
  function CryptoValue(items: seq<PortfolioItem>): real
  {
    Sum(CryptoValues(items))
  }

  /** Appending a row adds its value only when it is a crypto holding. */
  lemma CryptoValueAppend(items: seq<PortfolioItem>, x: PortfolioItem)
    ensures CryptoValue(items + [x]) == CryptoValue(items) + (if IsCrypto(x) then x.currentValue.GetOr(0.0) else 0.0)
  {
    assert (items + [x])[..|items|] == items;
    if IsCrypto(x) {
      SumAppend(CryptoValues(items), x.currentValue.GetOr(0.0));
    } else {
      assert CryptoValues(items) + [] == CryptoValues(items);
    }
  }

  /** Fiat rows and rows without a currency never contribute. */
  lemma {:induction false} CryptoValueWithoutCrypto(items: seq<PortfolioItem>)
    requires forall i :: 0 <= i < |items| ==> !IsCrypto(items[i])
    ensures CryptoValue(items) == 0.0
  {
    if |items| > 0 {
      var p := items[..|items| - 1];
      assert forall i :: 0 <= i < |p| ==> p[i] == items[i];
      CryptoValueWithoutCrypto(p);
      assert items == p + [items[|items| - 1]];
      CryptoValueAppend(p, items[|items| - 1]);
    }
  }

  /** Holdings of non-negative value give a non-negative crypto value. */
  lemma {:induction false} CryptoValueNonNegative(items: seq<PortfolioItem>)
    requires forall i :: 0 <= i < |items| ==> items[i].currentValue.GetOr(0.0) >= 0.0
    ensures CryptoValue(items) >= 0.0
  {
    if |items| > 0 {
      var p := items[..|items| - 1];
      assert forall i :: 0 <= i < |p| ==> p[i] == items[i];
      CryptoValueNonNegative(p);
      assert items == p + [items[|items| - 1]];
      CryptoValueAppend(p, items[|items| - 1]);
    }
  }

  /** The pure part of `getAccountMetrics` (the positions list is passed
      through unchanged and not modelled). */
  datatype LiveMetrics = LiveMetrics(availableCash: real, cryptoValue: real, accountValue: real)

  function GetAccountMetrics(items: seq<PortfolioItem>): (m: LiveMetrics)
    ensures m.availableCash == AvailableCash(items) && m.cryptoValue == CryptoValue(items)
    ensures m.accountValue == m.cryptoValue + m.availableCash
  {
    var cash := AvailableCash(items);
    var crypto := CryptoValue(items);
    LiveMetrics(cash, crypto, crypto + cash)
  }

  /** The initial-balance choice of `calcPerformanceMetrics`: a positive
      stored balance wins, otherwise the renderer's inference. */
  function InitialBalance(accountValue: real, orders: seq<ClosedOrder>, stored: Option<real>): real
  {
    if stored.Some? && stored.value > 0.0 then stored.value
    else CalculateInitialBalance(accountValue, orders)
  }

  /** With a positive account value the chosen balance is positive, and a
      chosen balance other than the stored one or the account value is one
      the realized PnL grows into the account value. */
  lemma InitialBalanceChoice(accountValue: real, orders: seq<ClosedOrder>, stored: Option<real>)
    ensures accountValue > 0.0 ==> InitialBalance(accountValue, orders, stored) > 0.0
    ensures var b := InitialBalance(accountValue, orders, stored);
      (stored.Some? && stored.value > 0.0 && b == stored.value) || b == accountValue ||
      (b > 0.0 && b + TotalPnl(orders) == accountValue)
  {
    InitialBalanceCases(accountValue, orders);
    if accountValue > 0.0 {
      InitialBalancePositive(accountValue, orders);
    }
  }

  datatype PerformanceMetrics = PerformanceMetrics(initialBalance: real, totalReturnPercent: real,
                                                   sharpeRatio: SharpeValue)

  /** `calcPerformanceMetrics`. */
  method CalcPerformanceMetrics(accountValue: real, orders: seq<ClosedOrder>, stored: Option<real>)
    returns (m: PerformanceMetrics)
    ensures m.initialBalance == InitialBalance(accountValue, orders, stored)
    ensures accountValue > 0.0 ==> m.initialBalance > 0.0
    ensures m.totalReturnPercent == CalculateTotalReturnPercent(accountValue, m.initialBalance)
    ensures m.sharpeRatio == (if |orders| > 0 && m.initialBalance != 0.0
                              then SharpeOf(Returns(Pnls(orders), m.initialBalance)) else NoSharpe)
    ensures m.sharpeRatio.Ratio? <==>
      m.initialBalance != 0.0 && exists j :: 1 <= j < |orders| && PnlOf(orders[j]) != 0.0
    ensures m.sharpeRatio.Ratio? ==> m.sharpeRatio.variance > 0.0
  {
    var initialBalance: real;
    if stored.Some? && stored.value > 0.0 {
      initialBalance := stored.value;
    } else {
      initialBalance := CalculateInitialBalance(accountValue, orders);
    }
    InitialBalanceChoice(accountValue, orders, stored);
    var totalReturnPercent := CalculateTotalReturnPercent(accountValue, initialBalance);
    var sharpeRatio := NoSharpe;
    if |orders| > 0 && initialBalance != 0.0 {
      sharpeRatio := ComputeSharpe(Pnls(orders), initialBalance);
      OrdersSharpeDefinedIff(orders, initialBalance);
    }
    m := PerformanceMetrics(initialBalance, totalReturnPercent, sharpeRatio);
  }
}
