/** The highest/lowest performer cards of the dashboard: each account's
    value and percentage change, sorted by value, highest first, with the
    first and last taken. */
module Performance {
  import opened Wrappers
  import Text
  import Sorting

  const MODEL_NAME: string := "google/gemini-2.0-flash-001"

  /** An account row; `None` is SQL null (the value columns are taken to
      be decimal columns, which arrive as strings, so a stored zero is
      present). */
  datatype AccountRow = AccountRow(id: string, initialBalance: real, currentBalance: real,
                                   accountValue: Option<real>, totalReturnPercent: Option<real>)

  datatype AccountMetric = AccountMetric(id: string, accountValue: real, change: real)

  datatype Card = Card(model: string, value: real, change: real, icon: string)

  datatype PerformanceResult = PerformanceResult(highest: Option<Card>, lowest: Option<Card>)

  /** The stored value when present, else the current balance. */
  function ValueOf(a: AccountRow): real
  {
    a.accountValue.GetOr(a.currentBalance)
  }

  /** The stored return when present, else the return over a positive
      initial balance, else 0. */
  function ChangeOf(a: AccountRow): (c: real)
    ensures a.totalReturnPercent.Some? ==> c == a.totalReturnPercent.value
    ensures a.totalReturnPercent.None? && a.initialBalance <= 0.0 ==> c == 0.0
    ensures a.totalReturnPercent.None? && a.initialBalance > 0.0 ==>
      a.initialBalance + a.initialBalance * c / 100.0 == ValueOf(a)
  {
    if a.totalReturnPercent.Some? then a.totalReturnPercent.value
    else if a.initialBalance > 0.0 then (ValueOf(a) - a.initialBalance) / a.initialBalance * 100.0
    else 0.0
  }

  function Metric(a: AccountRow): AccountMetric
  {
    AccountMetric(a.id, ValueOf(a), ChangeOf(a))
  }

  function Metrics(accounts: seq<AccountRow>): (r: seq<AccountMetric>)
    ensures |r| == |accounts|
    ensures forall i :: 0 <= i < |accounts| ==> r[i] == Metric(accounts[i])
  {
    seq(|accounts|, i requires 0 <= i < |accounts| => Metric(accounts[i]))
  }

  function ByValue(m: AccountMetric): real
  {
    m.accountValue
  }

  function CardOf(m: AccountMetric): Card
  {
    Card(Text.Upper(MODEL_NAME), m.accountValue, m.change, "gemini")
  }

  /** The handler's result. */
  function PerformanceOf(accounts: seq<AccountRow>): PerformanceResult
  {
    if |accounts| == 0 then PerformanceResult(None, None)
    else
      var sorted := Sorting.SortDesc(Metrics(accounts), ByValue);
      PerformanceResult(Some(CardOf(sorted[0])), Some(CardOf(sorted[|sorted| - 1])))
  }

  /** No accounts give two nulls. Otherwise the highest card's value bounds
      every account's value from above and the lowest's from below, both
      are some account's value and change, and with one account they are
      the same card. */
  lemma PerformanceSpec(accounts: seq<AccountRow>)
    ensures var r := PerformanceOf(accounts);
      (|accounts| == 0 <==> r.highest.None?) && (|accounts| == 0 <==> r.lowest.None?) &&
      (|accounts| > 0 ==>
        (forall i :: 0 <= i < |accounts| ==>
          r.lowest.value.value <= ValueOf(accounts[i]) <= r.highest.value.value) &&
        (exists i :: 0 <= i < |accounts| && r.highest.value == CardOf(Metric(accounts[i]))) &&
        (exists i :: 0 <= i < |accounts| && r.lowest.value == CardOf(Metric(accounts[i]))) &&
        (|accounts| == 1 ==> r.highest == r.lowest))
  {
    if |accounts| > 0 {
      var ms := Metrics(accounts);
      var sorted := Sorting.SortDesc(ms, ByValue);
      Sorting.SortDescExtremes(ms, ByValue);
      assert PerformanceOf(accounts) == PerformanceResult(Some(CardOf(sorted[0])), Some(CardOf(sorted[|sorted| - 1])));
      forall i | 0 <= i < |accounts| ensures sorted[|sorted| - 1].accountValue <= ValueOf(accounts[i]) <= sorted[0].accountValue {
        assert ByValue(sorted[|sorted| - 1]) <= ByValue(ms[i]) <= ByValue(sorted[0]);
        assert ms[i] == Metric(accounts[i]);
      }
      var h :| 0 <= h < |ms| && ms[h] == sorted[0];
      var l :| 0 <= l < |ms| && ms[l] == sorted[|sorted| - 1];
    }
  }
}
