/** The paper-trading ledger as a mutable store: the three tables are fields
    the operations update in place, in the order the source issues its
    writes. Each method is proved to leave the store in the state, and to
    return the result, that the pure transitions of module `Ledger` compute. */
module LedgerStore {
  import opened Wrappers
  import opened Ledger
  import ExchangeConfig
  import Sharpe
  import RealSeqs

  /** The Sharpe guard of `getAccountMetrics`: the loop runs only with
      fills and a positive initial balance. */
  method SharpeOfFills(closed: seq<Order>, initial: real) returns (sharpe: Sharpe.SharpeValue)
    ensures sharpe == LedgerSharpe(closed, initial)
  {
    sharpe := Sharpe.NoSharpe;
    if |closed| > 0 && initial > 0.0 {
      sharpe := Sharpe.ComputeSharpe(RealizedPnls(closed), initial);
    }
  }

  class Store {
    var accounts: seq<Account>
    var positions: seq<Position>
    var orders: seq<Order>
    var nextId: nat

    /** The tables as one value. */
    function State(): Tables
      reads this
    {
      Tables(accounts, positions, orders, nextId)
    }

    /** An empty database. */
    constructor ()
      ensures State() == Tables([], [], [], 0)
    {
      accounts := [];
      positions := [];
      orders := [];
      nextId := 0;
    }

    /** `getOrCreateAccount`: the first account, or a new one seeded with
        `initialBalance`. */
    method GetOrCreateAccount(initialBalance: real := DEFAULT_INITIAL_BALANCE) returns (account: Account)
      modifies this
      ensures (account, State()) == Ledger.GetOrCreateAccount(old(State()), initialBalance)
    {
      if |accounts| > 0 {
        return accounts[0];
      }
      account := Account(nextId, initialBalance, initialBalance, 0.0);
      accounts := accounts + [account];
      nextId := nextId + 1;
    }

    /** `createPosition`: the three guards, then insert the position, move the
        balance and insert the order. */
    method CreatePosition(accountId: Id, symbol: string, side: Side, quantity: real, price: real,
                          agentInvocationId: Option<string>) returns (r: Result<Opened, LedgerError>)
      modifies this
      ensures var s := Ledger.CreatePosition(old(State()), accountId, symbol, side, quantity, price, agentInvocationId);
        r == s.result && State() == s.after
    {
      if !ExchangeConfig.IsSupportedSymbol(symbol) {
        return Failure(UnsupportedSymbol);
      }
      var account := FindAccount(accounts, accountId);
      if account.None? {
        return Failure(AccountNotFound);
      }
      var existing := FindBySymbol(OpenPositions(positions, accountId), symbol);
      if existing.Some? {
        return Failure(PositionAlreadyExists);
      }
      r := Open(account.value, symbol, side, quantity, price, agentInvocationId);
    }

    /** The writes of `createPosition` once its guards have passed. */
    method Open(a: Account, symbol: string, side: Side, quantity: real, price: real,
                agentInvocationId: Option<string>) returns (r: Result<Opened, LedgerError>)
      modifies this
      ensures Step(r, State()) == Ledger.ApplyOpen(old(State()), a, symbol, side, quantity, price, agentInvocationId)
    {
      ghost var t := State();
      var position := Position(nextId, a.id, symbol, side, quantity, price, price, 0.0, 1, true);
      positions := positions + [position];
      var newBalance := a.currentBalance + FillValue(side, price, quantity);
      accounts := SetBalance(accounts, a.id, newBalance);
      var order := Order(nextId + 1, a.id, Some(position.id), agentInvocationId, symbol, side, MARKET,
                         quantity, Some(price), None, Some(price), FILLED, None);
      orders := orders + [order];
      nextId := nextId + 2;
      r := Success(Opened(position, order));
      assert Ledger.ApplyOpen(t, a, symbol, side, quantity, price, agentInvocationId) == Step(r, State());
    }

    /** `closePosition`: the three guards, then shrink or close the position,
        move the balance and total PnL, and insert the opposite-side order. */
    method ClosePosition(accountId: Id, symbol: string, quantity: Option<real>,
                         agentInvocationId: Option<string>) returns (r: Result<Closed, LedgerError>)
      modifies this
      ensures var s := Ledger.ClosePosition(old(State()), accountId, symbol, quantity, agentInvocationId);
        r == s.result && State() == s.after
    {
      if !ExchangeConfig.IsSupportedSymbol(symbol) {
        return Failure(UnsupportedSymbol);
      }
      var account := FindAccount(accounts, accountId);
      if account.None? {
        return Failure(AccountNotFound);
      }
      var found := FindBySymbol(OpenPositions(positions, accountId), symbol);
      if found.None? {
        return Failure(NoOpenPosition);
      }
      r := Close(account.value, found.value, quantity, agentInvocationId);
    }

    /** The writes of `closePosition` once its guards have passed. */
    method Close(a: Account, existing: Position, quantity: Option<real>, agentInvocationId: Option<string>)
      returns (r: Result<Closed, LedgerError>)
      modifies this
      ensures Step(r, State()) == Ledger.ApplyClose(old(State()), a, existing, quantity, agentInvocationId)
    {
      ghost var t := State();
      var closing := ClosingQuantity(quantity, existing.quantity);
      var remaining := existing.quantity - closing;
      var currentPrice := existing.currentPrice;
      var realized := DirectionalPnl(existing.side, existing.entryPrice, currentPrice, closing);
      if remaining > 0.0 {
        positions := SetQuantity(positions, existing.id, remaining);
      } else {
        positions := MarkClosed(positions, existing.id);
      }
      var oppositeSide := Opposite(existing.side);
      var tradeValue := FillValue(oppositeSide, currentPrice, closing);
      accounts := SetBalanceAndPnl(accounts, a.id, a.currentBalance + tradeValue + realized, a.totalPnl + realized);
      var order := Order(nextId, a.id, Some(existing.id), agentInvocationId, existing.symbol, oppositeSide, MARKET,
                         closing, Some(currentPrice), None, Some(currentPrice), FILLED, Some(realized));
      orders := orders + [order];
      nextId := nextId + 1;
      r := Success(Closed(realized, closing, order));
      assert Ledger.ApplyClose(t, a, existing, quantity, agentInvocationId) == Step(r, State());
    }

    /** `updatePositionPnL`: mark one position to `currentPrice`. */
    method UpdatePositionPnL(positionId: Id, currentPrice: real) returns (r: Result<Position, LedgerError>)
      modifies this
      ensures var s := Ledger.UpdatePositionPnL(old(State()), positionId, currentPrice);
        r == s.result && State() == s.after
    {
      var found := FindPosition(positions, positionId);
      if found.None? {
        return Failure(PositionNotFound);
      }
      var position := found.value;
      var pnl := DirectionalPnl(position.side, position.entryPrice, currentPrice, position.quantity);
      positions := SetMark(positions, positionId, currentPrice, pnl);
      r := Success(position.(currentPrice := currentPrice, unrealizedPnl := pnl));
    }

    /** `getAccountMetrics`: read-only; the Sharpe loop runs only with fills
        and a positive initial balance. */
    method GetAccountMetrics(accountId: Id) returns (r: Result<Metrics, LedgerError>)
      ensures r == AccountMetrics(State(), accountId)
    {
      var t := State();
      var account := FindAccount(t.accounts, accountId);
      if account.None? {
        return Failure(AccountNotFound);
      }
      var a := account.value;
      var open := OpenPositions(t.positions, accountId);
      var closed := ClosedOrders(t.orders, accountId);
      var unrealized := RealSeqs.Sum(UnrealizedPnls(open));
      var accountValue := a.currentBalance + unrealized;
      var totalReturnPercent := ReturnPercent(accountValue, a.initialBalance);
      var sharpe := SharpeOfFills(closed, a.initialBalance);
      r := Success(Metrics(a.currentBalance, unrealized, accountValue, open, totalReturnPercent, sharpe,
                           a.initialBalance));
    }
  }
}
