/** The completed-trades feed of the dashboard: the latest filled orders
    that belong to a position, shaped into trade records (entry and exit
    prices, notionals, holding time), grouped per account, then sorted by
    completion time, newest first, and cut to 100. */
module CompletedTrades {
  import opened Wrappers
  import Text
  import Sorting

  const MODEL_NAME: string := "google/gemini-2.0-flash-001"
  const MAX_TRADES: nat := 100

  /** An order row. Decimal columns arrive as strings, so a price or PnL of
      zero is still present (truthy); `None` is SQL null. Times are epoch
      milliseconds. */
  datatype OrderRow = OrderRow(id: string, positionId: Option<string>, symbol: string, status: string,
                               quantity: real, price: Option<real>, filledPrice: Option<real>,
                               realizedPnl: Option<real>, createdAt: int)

  datatype PositionRow = PositionRow(side: string, entryPrice: real, createdAt: int)

  /** One row of the order/account inner join and order/position left
      join. */
  datatype TradeRow = TradeRow(order: OrderRow, accountId: string, position: Option<PositionRow>)

  datatype Trade = Trade(id: string, modelName: string, tradeType: string, coin: string, completedAt: int,
                         entryPrice: real, exitPrice: real, quantity: real, notionalEntry: real,
                         notionalExit: real, holdingTime: string, netPnl: real)

  datatype TradeGroup = TradeGroup(accountId: string, trades: seq<Trade>)

  /** The query's `where`: filled orders that name a position. */
  predicate Selected(r: TradeRow)
  {
    r.order.status == "FILLED" && r.order.positionId.Some?
  }

  function SelectedRows(rows: seq<TradeRow>): (r: seq<TradeRow>)
    ensures forall i :: 0 <= i < |r| ==> Selected(r[i])
    ensures forall x :: x in r <==> x in rows && Selected(x)
    ensures |r| <= |rows|
  {
    if |rows| == 0 then []
    else
      var last := rows[|rows| - 1];
      assert forall x :: x in rows <==> x in rows[..|rows| - 1] || x == last;
      SelectedRows(rows[..|rows| - 1]) + (if Selected(last) then [last] else [])
  }

  /** `slice(0, n)` and SQL `limit n`. */
  function Take<T>(s: seq<T>, n: nat): (r: seq<T>)
    ensures |r| == if |s| <= n then |s| else n
    ensures r == s[..|r|]
  {
    if |s| <= n then s else s[..n]
  }

  /** The query result: selected rows, newest first, at most 100. */
  function Query(rows: seq<TradeRow>): seq<TradeRow>
  {
    Take(Sorting.SortDesc(SelectedRows(rows), (r: TradeRow) => r.order.createdAt as real), MAX_TRADES)
  }

  /** The rows the loop does not skip. */
  predicate Kept(r: TradeRow)
  {
    r.order.filledPrice.Some? && r.order.realizedPnl.Some?
  }

  /** `Math.round(ms / 60000)`: the nearest whole minute, halves rounded
      up. */
  function RoundMinutes(ms: int): (m: int)
    ensures m * 60000 - 30000 <= ms < m * 60000 + 30000
  {
    (ms + 30000) / 60000
  }

  /** The `holdingTimeFormatted` branches. */
  function FormatHoldingTime(h: int): (s: string)
    ensures h < 60 ==> s == Text.IntToString(h) + "m"
    ensures 60 <= h < 1440 ==> s == Text.IntToString(h / 60) + "h " + Text.IntToString(h % 60) + "m"
    ensures h >= 1440 ==> s == Text.IntToString(h / 1440) + "d " + Text.IntToString((h % 1440) / 60) + "h"
    ensures |s| > 0
  {
    if h < 60 then Text.IntToString(h) + "m"
    else if h < 1440 then Text.IntToString(h / 60) + "h " + Text.IntToString(h % 60) + "m"
    else Text.IntToString(h / 1440) + "d " + Text.IntToString((h % 1440) / 60) + "h"
  }

  /** The printed parts recombine into the holding time: hours and minutes
      exactly below a day, days and whole hours (minutes dropped) from a day
      on. */
  lemma HoldingTimeParts(h: int)
    ensures 60 <= h < 1440 ==> 1 <= h / 60 < 24 && 0 <= h % 60 < 60 && (h / 60) * 60 + h % 60 == h
    ensures h >= 1440 ==>
      var days := h / 1440; var hours := (h % 1440) / 60;
      days >= 1 && 0 <= hours < 24 && days * 1440 + hours * 60 <= h < days * 1440 + (hours + 1) * 60
  {
  }

  function TradeType(position: Option<PositionRow>): string
  {
    match position
    case None => "trade"
    case Some(p) => if p.side == "LONG" then "long trade" else "short trade"
  }

  /** The ledger stores sides as BUY or SELL, so every trade with a joined
      position is labelled a short trade. */
  lemma LedgerSidesAreShort(p: PositionRow)
    requires p.side == "BUY" || p.side == "SELL"
    ensures TradeType(Some(p)) == "short trade"
  {
  }

  /** The record a kept row becomes. */
  function Shape(r: TradeRow): Trade
    requires Kept(r)
  {
    var o := r.order;
    var entryPrice := if r.position.Some? then r.position.value.entryPrice else o.price.GetOr(0.0);
    var exitPrice := o.filledPrice.value;
    var holding := if r.position.Some? then RoundMinutes(o.createdAt - r.position.value.createdAt) else 0;
    Trade(o.id, MODEL_NAME, TradeType(r.position), Text.ReplaceFirst(o.symbol, "USDT", ""), o.createdAt,
          entryPrice, exitPrice, o.quantity, entryPrice * o.quantity, exitPrice * o.quantity,
          FormatHoldingTime(holding), o.realizedPnl.value)
  }

  /** A trade's fields follow from its row: the position's entry price when
      there is one, else the order's price or 0; notionals are price times
      quantity; the coin drops the first "USDT". */
  lemma ShapeFields(r: TradeRow)
    requires Kept(r)
    ensures var t := Shape(r);
      t.entryPrice == (if r.position.Some? then r.position.value.entryPrice else r.order.price.GetOr(0.0)) &&
      t.notionalEntry == t.entryPrice * r.order.quantity &&
      t.notionalExit == r.order.filledPrice.value * r.order.quantity &&
      t.netPnl == r.order.realizedPnl.value &&
      t.completedAt == r.order.createdAt &&
      (r.position.None? ==> t.holdingTime == "0m") &&
      (Text.IndexOf(r.order.symbol, "USDT").None? ==> t.coin == r.order.symbol)
  {
    if r.position.None? {
      assert Text.IntToString(0) == "0";
    }
  }

  /** The trades of the kept rows, in order. */
  function Shapes(rows: seq<TradeRow>): seq<Trade>
  {
    if |rows| == 0 then []
    else
      var last := rows[|rows| - 1];
      Shapes(rows[..|rows| - 1]) + (if Kept(last) then [Shape(last)] else [])
  }

  /** Skipping rows never adds trades: there are at most as many as rows. */
  lemma {:induction false} ShapesLength(rows: seq<TradeRow>)
    ensures |Shapes(rows)| <= |rows|
  {
    if |rows| > 0 {
      ShapesLength(rows[..|rows| - 1]);
    }
  }

  function IndexOfGroup(groups: seq<TradeGroup>, id: string): (r: Option<nat>)
    ensures r.Some? ==> r.value < |groups| && groups[r.value].accountId == id
    ensures r.None? ==> forall k :: 0 <= k < |groups| ==> groups[k].accountId != id
  {
    if |groups| == 0 then None
    else if groups[|groups| - 1].accountId == id then Some(|groups| - 1)
    else IndexOfGroup(groups[..|groups| - 1], id)
  }

  /** One iteration of the grouping loop. */
  function AddTradeRow(groups: seq<TradeGroup>, r: TradeRow): seq<TradeGroup>
  {
    if !Kept(r) then groups
    else
      match IndexOfGroup(groups, r.accountId)
      case None => groups + [TradeGroup(r.accountId, [Shape(r)])]
      case Some(k) => groups[k := groups[k].(trades := groups[k].trades + [Shape(r)])]
  }

  function GroupTrades(rows: seq<TradeRow>): seq<TradeGroup>
  {
    if |rows| == 0 then [] else AddTradeRow(GroupTrades(rows[..|rows| - 1]), rows[|rows| - 1])
  }

  /** `flatMap(account => account.trades)`. */
  function Flatten(groups: seq<TradeGroup>): seq<Trade>
  {
    if |groups| == 0 then [] else Flatten(groups[..|groups| - 1]) + groups[|groups| - 1].trades
  }

  function ByCompletion(t: Trade): real
  {
    t.completedAt as real
  }

  /** The handler's result. */
  function CompletedTradesOf(rows: seq<TradeRow>): seq<Trade>
  {
    Take(Sorting.SortDesc(Flatten(GroupTrades(Query(rows))), ByCompletion), MAX_TRADES)
  }

  /** The handler's loop over the query result, then flatten, sort and
      truncate. */
  method BuildCompletedTrades(rows: seq<TradeRow>) returns (result: seq<Trade>)
    ensures result == CompletedTradesOf(rows)
  {
    var closedOrders := Query(rows);
    var groups: seq<TradeGroup> := [];
    for i := 0 to |closedOrders|
      invariant groups == GroupTrades(closedOrders[..i])
    {
      var row := closedOrders[i];
      assert closedOrders[..i + 1][..i] == closedOrders[..i];
      if !Kept(row) {
        continue;
      }
      ghost var before := groups;
      var idx := IndexOfGroup(groups, row.accountId);
      var k: nat;
      if idx.None? {
        groups := groups + [TradeGroup(row.accountId, [])];
        k := |groups| - 1;
      } else {
        k := idx.value;
      }
      groups := groups[k := groups[k].(trades := groups[k].trades + [Shape(row)])];
      if idx.None? {
        assert [] + [Shape(row)] == [Shape(row)];
        assert groups == before + [TradeGroup(row.accountId, [Shape(row)])];
      }
    }
    assert closedOrders[..|closedOrders|] == closedOrders;
    var allTrades := Flatten(groups);
    allTrades := Sorting.SortDesc(allTrades, ByCompletion);
    result := Take(allTrades, MAX_TRADES);
  }

  lemma FlattenAppend(groups: seq<TradeGroup>, g: TradeGroup)
    ensures Flatten(groups + [g]) == Flatten(groups) + g.trades
  {
    assert (groups + [g])[..|groups|] == groups;
  }

  /** Appending to one group adds exactly that trade to the flattened list. */
  lemma {:induction false} FlattenUpdate(groups: seq<TradeGroup>, k: nat, t: Trade)
    requires k < |groups|
    ensures multiset(Flatten(groups[k := groups[k].(trades := groups[k].trades + [t])]))
      == multiset(Flatten(groups)) + multiset{t}
  {
    var last := |groups| - 1;
    var p := groups[..last];
    var groups' := groups[k := groups[k].(trades := groups[k].trades + [t])];
    assert Flatten(groups) == Flatten(p) + groups[last].trades;
    if k == last {
      assert groups'[..last] == p;
      assert Flatten(groups') == Flatten(p) + (groups[last].trades + [t]);
    } else {
      var p' := p[k := p[k].(trades := p[k].trades + [t])];
      assert groups'[..last] == p';
      assert Flatten(groups') == Flatten(p') + groups[last].trades;
      FlattenUpdate(p, k, t);
    }
  }

  /** Grouping neither loses nor invents trades: the flattened groups hold
      exactly the trades of the kept rows. */
  lemma {:induction false} GroupTradesPermutation(rows: seq<TradeRow>)
    ensures multiset(Flatten(GroupTrades(rows))) == multiset(Shapes(rows))
  {
    if |rows| > 0 {
      var p := rows[..|rows| - 1];
      var r := rows[|rows| - 1];
      GroupTradesPermutation(p);
      var gs := GroupTrades(p);
      if Kept(r) {
        match IndexOfGroup(gs, r.accountId)
        case None =>
          FlattenAppend(gs, TradeGroup(r.accountId, [Shape(r)]));
        case Some(k) =>
          FlattenUpdate(gs, k, Shape(r));
      }
    }
  }

  /** The feed is newest first, holds at most 100 trades, and is a
      reordering of exactly the trades of the kept rows of the query. */
  lemma CompletedTradesSpec(rows: seq<TradeRow>)
    ensures var result := CompletedTradesOf(rows);
      Sorting.SortedDesc(result, ByCompletion) &&
      |result| <= MAX_TRADES &&
      multiset(result) == multiset(Shapes(Query(rows)))
  {
    ShapesLength(Query(rows));
    var all := Flatten(GroupTrades(Query(rows)));
    var sorted := Sorting.SortDesc(all, ByCompletion);
    Sorting.SortDescCorrect(all, ByCompletion);
    GroupTradesPermutation(Query(rows));
    var result := CompletedTradesOf(rows);
    assert |all| == |Shapes(Query(rows))| by {
      assert |multiset(all)| == |multiset(Shapes(Query(rows)))|;
    }
    forall i, j | 0 <= i < j < |result| ensures ByCompletion(result[i]) >= ByCompletion(result[j]) {
      assert result[i] == sorted[i] && result[j] == sorted[j];
    }
  }
}
