/** The paper-trading ledger: the accounts, positions and orders tables and
    the transitions that open, close and mark positions, as pure functions
    of the table state. Rows are kept in insertion (created_at) order. */
module Ledger {
  import opened Wrappers
  import opened RealSeqs
  import ExchangeConfig
  import Sharpe
  import Seqs

  /** Row ids; the database draws random uuids, the model a fresh counter. */
  type Id = nat

  datatype Side = BUY | SELL
  datatype OrderStatus = PENDING | FILLED
  datatype OrderType = MARKET

  datatype Account = Account(id: Id, initialBalance: real, currentBalance: real, totalPnl: real)

  datatype Position = Position(
    id: Id, accountId: Id, symbol: string, side: Side,
    quantity: real, entryPrice: real, currentPrice: real, unrealizedPnl: real,
    leverage: int, isOpen: bool)

  datatype Order = Order(
    id: Id, accountId: Id, positionId: Option<Id>, agentInvocationId: Option<string>,
    symbol: string, side: Side, orderType: OrderType, quantity: real,
    price: Option<real>, stopPrice: Option<real>, filledPrice: Option<real>,
    status: OrderStatus, realizedPnl: Option<real>)

  datatype Tables = Tables(accounts: seq<Account>, positions: seq<Position>, orders: seq<Order>, nextId: nat)

  datatype LedgerError = UnsupportedSymbol | AccountNotFound | PositionAlreadyExists | NoOpenPosition | PositionNotFound

  /** The returned value (or the error thrown) and the tables afterwards. */
  datatype Step<T> = Step(result: Result<T, LedgerError>, after: Tables)

  datatype Opened = Opened(position: Position, order: Order)
  datatype Closed = Closed(realizedPnl: real, closedQuantity: real, order: Order)

  /** Seed balance of `getOrCreateAccount` when none is given. */
  const DEFAULT_INITIAL_BALANCE: real := 10000.0

  // ---------------------------------------------------------------- queries

  /** `select ... where id = accountId limit 1`. */
  function FindAccount(accs: seq<Account>, id: Id): (r: Option<Account>)
    ensures r.Some? ==> r.value in accs && r.value.id == id
    ensures r.None? <==> forall i :: 0 <= i < |accs| ==> accs[i].id != id
  {
    if |accs| == 0 then None
    else if accs[0].id == id then Some(accs[0])
    else FindAccount(accs[1..], id)
  }

  /** `select ... where id = positionId limit 1`: the same lookup as
      `FindAccount`, on the positions table. */
  function FindPosition(ps: seq<Position>, id: Id): (r: Option<Position>)
    ensures r.Some? ==> r.value in ps && r.value.id == id
    ensures r.None? <==> forall i :: 0 <= i < |ps| ==> ps[i].id != id
  {
    if |ps| == 0 then None
    else if ps[0].id == id then Some(ps[0])
    else FindPosition(ps[1..], id)
  }

  /** `getOpenPositions`: the account's open positions, newest first. */
  function OpenPositions(ps: seq<Position>, accountId: Id): (r: seq<Position>)
    ensures forall p :: p in r <==> p in ps && p.accountId == accountId && p.isOpen
    ensures |r| <= |ps|
    ensures Seqs.NewestFirst(r, ps)
  {
    if |ps| == 0 then []
    else
      var last := ps[|ps| - 1];
      var head := if last.accountId == accountId && last.isOpen then [last] else [];
      var rest := OpenPositions(ps[..|ps| - 1], accountId);
      Seqs.PrependNewest(ps, rest, head);
      head + rest
  }

  /** `getClosedOrders`: the account's FILLED orders, newest first. */
  function ClosedOrders(os: seq<Order>, accountId: Id): (r: seq<Order>)
    ensures forall o :: o in r <==> o in os && o.accountId == accountId && o.status == FILLED
    ensures |r| <= |os|
    ensures Seqs.NewestFirst(r, os)
  {
    if |os| == 0 then []
    else
      var last := os[|os| - 1];
      var head := if last.accountId == accountId && last.status == FILLED then [last] else [];
      var rest := ClosedOrders(os[..|os| - 1], accountId);
      Seqs.PrependNewest(os, rest, head);
      head + rest
  }

  /** `openPositions.find(p => p.symbol === symbol)`: the first match. */
  function FindBySymbol(ps: seq<Position>, symbol: string): (r: Option<Position>)
    ensures r.Some? ==> r.value in ps && r.value.symbol == symbol
    ensures r.None? <==> forall p :: p in ps ==> p.symbol != symbol
  {
    if |ps| == 0 then None
    else if ps[0].symbol == symbol then Some(ps[0])
    else FindBySymbol(ps[1..], symbol)
  }

  /** The account's open position for `symbol`, if any. */
  function FindOpenPosition(t: Tables, accountId: Id, symbol: string): (r: Option<Position>)
    ensures r.Some? ==> r.value in t.positions && r.value.isOpen && r.value.accountId == accountId && r.value.symbol == symbol
    ensures r.None? <==> forall p :: p in t.positions && p.isOpen && p.accountId == accountId ==> p.symbol != symbol
  {
    FindBySymbol(OpenPositions(t.positions, accountId), symbol)
  }

  // ---------------------------------------------------------------- row updates

  /** `update accounts set current_balance = b where id = accountId`. */
  function SetBalance(accs: seq<Account>, id: Id, balance: real): (r: seq<Account>)
    ensures |r| == |accs|
    ensures forall i :: 0 <= i < |accs| ==> r[i] == if accs[i].id == id then accs[i].(currentBalance := balance) else accs[i]
  {
    seq(|accs|, i requires 0 <= i < |accs| => if accs[i].id == id then accs[i].(currentBalance := balance) else accs[i])
  }

  /** `update accounts set current_balance = b, total_pnl = p where id = accountId`. */
  function SetBalanceAndPnl(accs: seq<Account>, id: Id, balance: real, pnl: real): (r: seq<Account>)
    ensures |r| == |accs|
    ensures forall i :: 0 <= i < |accs| ==>
      r[i] == if accs[i].id == id then accs[i].(currentBalance := balance, totalPnl := pnl) else accs[i]
  {
    seq(|accs|, i requires 0 <= i < |accs| =>
      if accs[i].id == id then accs[i].(currentBalance := balance, totalPnl := pnl) else accs[i])
  }

  /** `update positions set quantity = q where id = positionId`. */
  function SetQuantity(ps: seq<Position>, id: Id, quantity: real): (r: seq<Position>)
    ensures |r| == |ps|
    ensures forall i :: 0 <= i < |ps| ==> r[i] == if ps[i].id == id then ps[i].(quantity := quantity) else ps[i]
  {
    seq(|ps|, i requires 0 <= i < |ps| => if ps[i].id == id then ps[i].(quantity := quantity) else ps[i])
  }

  /** `update positions set is_open = false where id = positionId`. */
  function MarkClosed(ps: seq<Position>, id: Id): (r: seq<Position>)
    ensures |r| == |ps|
    ensures forall i :: 0 <= i < |ps| ==> r[i] == if ps[i].id == id then ps[i].(isOpen := false) else ps[i]
  {
    seq(|ps|, i requires 0 <= i < |ps| => if ps[i].id == id then ps[i].(isOpen := false) else ps[i])
  }

  /** `update positions set current_price = c, unrealized_pnl = u where id = positionId`. */
  function SetMark(ps: seq<Position>, id: Id, price: real, pnl: real): (r: seq<Position>)
    ensures |r| == |ps|
    ensures forall i :: 0 <= i < |ps| ==>
      r[i] == if ps[i].id == id then ps[i].(currentPrice := price, unrealizedPnl := pnl) else ps[i]
  {
    seq(|ps|, i requires 0 <= i < |ps| =>
      if ps[i].id == id then ps[i].(currentPrice := price, unrealizedPnl := pnl) else ps[i])
  }

  // ---------------------------------------------------------------- arithmetic

  /** Profit of a position of `side` moved from `entry` to `price`. */
  function DirectionalPnl(side: Side, entry: real, price: real, quantity: real): real
  {
    match side
    case BUY => (price - entry) * quantity
    case SELL => (entry - price) * quantity
  }

  function MinReal(a: real, b: real): real
  {
    if a <= b then a else b
  }

  /** `quantity ? Math.min(quantity, existing) : existing`: an absent or zero
      quantity closes everything; the result never exceeds `existing`. */
  function ClosingQuantity(requested: Option<real>, existing: real): (c: real)
    ensures c <= existing
    ensures requested.None? || requested.value == 0.0 ==> c == existing
    ensures requested.Some? && requested.value != 0.0 && requested.value <= existing ==> c == requested.value
    ensures requested.Some? && requested.value != 0.0 && requested.value > existing ==> c == existing
  {
    if requested.Some? && requested.value != 0.0 then MinReal(requested.value, existing) else existing
  }

  /** The cash a fill credits to the account: `price * quantity` for a BUY
      fill, `-price * quantity` for a SELL one. */
  function FillValue(side: Side, price: real, quantity: real): real
  {
    if side == BUY then price * quantity else -price * quantity
  }

  function Opposite(side: Side): Side
  {
    match side
    case BUY => SELL
    case SELL => BUY
  }

  // ---------------------------------------------------------------- transitions

  /** `getOrCreateAccount`: the first account row when there is one, otherwise
      a new row seeded with `initialBalance`. */
  function GetOrCreateAccount(t: Tables, initialBalance: real): (s: (Account, Tables))
    ensures |t.accounts| > 0 ==> s == (t.accounts[0], t)
    ensures |t.accounts| == 0 ==>
      s.0 == Account(t.nextId, initialBalance, initialBalance, 0.0) &&
      s.1 == t.(accounts := [s.0], nextId := t.nextId + 1)
  {
    if |t.accounts| > 0 then (t.accounts[0], t)
    else
      var account := Account(t.nextId, initialBalance, initialBalance, 0.0);
      (account, t.(accounts := t.accounts + [account], nextId := t.nextId + 1))
  }

  /** `createPosition`. */
  function CreatePosition(t: Tables, accountId: Id, symbol: string, side: Side, quantity: real, price: real,
                          agentInvocationId: Option<string>): (s: Step<Opened>)
    ensures s.result.Failure? ==> s.after == t
    ensures s.result == Failure(UnsupportedSymbol) <==> !ExchangeConfig.IsSupportedSymbol(symbol)
    ensures s.result == Failure(AccountNotFound) <==>
      ExchangeConfig.IsSupportedSymbol(symbol) && FindAccount(t.accounts, accountId).None?
    ensures s.result == Failure(PositionAlreadyExists) <==>
      ExchangeConfig.IsSupportedSymbol(symbol) && FindAccount(t.accounts, accountId).Some? &&
      FindOpenPosition(t, accountId, symbol).Some?
    ensures s.result.Failure? ==> s.result.error in {UnsupportedSymbol, AccountNotFound, PositionAlreadyExists}
  {
    if !ExchangeConfig.IsSupportedSymbol(symbol) then Step(Failure(UnsupportedSymbol), t)
    else match FindAccount(t.accounts, accountId)
      case None => Step(Failure(AccountNotFound), t)
      case Some(account) =>
        if FindOpenPosition(t, accountId, symbol).Some? then Step(Failure(PositionAlreadyExists), t)
        else ApplyOpen(t, account, symbol, side, quantity, price, agentInvocationId)
  }

  /** The writes of `createPosition` once the guards have passed: insert the
      position, move the balance, insert the order. */
  function ApplyOpen(t: Tables, account: Account, symbol: string, side: Side, quantity: real, price: real,
                     agentInvocationId: Option<string>): (s: Step<Opened>)
    ensures s.result.Success?
  {
    var position := Position(t.nextId, account.id, symbol, side, quantity, price, price, 0.0, 1, true);
    var newBalance := account.currentBalance + FillValue(side, price, quantity);
    var order := Order(t.nextId + 1, account.id, Some(position.id), agentInvocationId, symbol, side, MARKET,
                       quantity, Some(price), None, Some(price), FILLED, None);
    Step(Success(Opened(position, order)),
         Tables(SetBalance(t.accounts, account.id, newBalance), t.positions + [position], t.orders + [order], t.nextId + 2))
  }

  /** `closePosition`. */
  function ClosePosition(t: Tables, accountId: Id, symbol: string, quantity: Option<real>,
                         agentInvocationId: Option<string>): (s: Step<Closed>)
    ensures s.result.Failure? ==> s.after == t
    ensures s.result == Failure(UnsupportedSymbol) <==> !ExchangeConfig.IsSupportedSymbol(symbol)
    ensures s.result == Failure(AccountNotFound) <==>
      ExchangeConfig.IsSupportedSymbol(symbol) && FindAccount(t.accounts, accountId).None?
    ensures s.result == Failure(NoOpenPosition) <==>
      ExchangeConfig.IsSupportedSymbol(symbol) && FindAccount(t.accounts, accountId).Some? &&
      FindOpenPosition(t, accountId, symbol).None?
    ensures s.result.Failure? ==> s.result.error in {UnsupportedSymbol, AccountNotFound, NoOpenPosition}
  {
    if !ExchangeConfig.IsSupportedSymbol(symbol) then Step(Failure(UnsupportedSymbol), t)
    else match FindAccount(t.accounts, accountId)
      case None => Step(Failure(AccountNotFound), t)
      case Some(account) =>
        match FindOpenPosition(t, accountId, symbol)
        case None => Step(Failure(NoOpenPosition), t)
        case Some(existing) => ApplyClose(t, account, existing, quantity, agentInvocationId)
  }

  /** The writes of `closePosition` once the guards have passed. */
  function ApplyClose(t: Tables, account: Account, existing: Position, quantity: Option<real>,
                      agentInvocationId: Option<string>): (s: Step<Closed>)
    ensures s.result.Success?
    ensures s.result.value.closedQuantity == ClosingQuantity(quantity, existing.quantity)
    ensures s.result.value.realizedPnl ==
      DirectionalPnl(existing.side, existing.entryPrice, existing.currentPrice, s.result.value.closedQuantity)
    ensures s.after.accounts == SetBalanceAndPnl(t.accounts, account.id,
      account.currentBalance + FillValue(Opposite(existing.side), existing.currentPrice, s.result.value.closedQuantity)
        + s.result.value.realizedPnl,
      account.totalPnl + s.result.value.realizedPnl)
  {
    var closing := ClosingQuantity(quantity, existing.quantity);
    var remaining := existing.quantity - closing;
    var currentPrice := existing.currentPrice;
    var realized := DirectionalPnl(existing.side, existing.entryPrice, currentPrice, closing);
    var positions := if remaining > 0.0 then SetQuantity(t.positions, existing.id, remaining)
                     else MarkClosed(t.positions, existing.id);
    var oppositeSide := Opposite(existing.side);
    var tradeValue := FillValue(oppositeSide, currentPrice, closing);
    var accounts := SetBalanceAndPnl(t.accounts, account.id, account.currentBalance + tradeValue + realized,
                                     account.totalPnl + realized);
    var order := Order(t.nextId, account.id, Some(existing.id), agentInvocationId, existing.symbol, oppositeSide, MARKET,
                       closing, Some(currentPrice), None, Some(currentPrice), FILLED, Some(realized));
    Step(Success(Closed(realized, closing, order)), Tables(accounts, positions, t.orders + [order], t.nextId + 1))
  }

  /** `updatePositionPnL`: mark one position to `currentPrice`. */
  function UpdatePositionPnL(t: Tables, positionId: Id, currentPrice: real): (s: Step<Position>)
    ensures s.result.Failure? <==> FindPosition(t.positions, positionId).None?
    ensures s.result.Failure? ==> s.after == t && s.result.error == PositionNotFound
    ensures s.after.accounts == t.accounts && s.after.orders == t.orders && s.after.nextId == t.nextId
    ensures |s.after.positions| == |t.positions|
    ensures s.result.Success? ==>
      s.result.value.id == positionId && s.result.value.currentPrice == currentPrice &&
      s.result.value.unrealizedPnl ==
        DirectionalPnl(s.result.value.side, s.result.value.entryPrice, currentPrice, s.result.value.quantity)
  {
    match FindPosition(t.positions, positionId)
    case None => Step(Failure(PositionNotFound), t)
    case Some(position) =>
      var pnl := DirectionalPnl(position.side, position.entryPrice, currentPrice, position.quantity);
      Step(Success(position.(currentPrice := currentPrice, unrealizedPnl := pnl)),
           t.(positions := SetMark(t.positions, positionId, currentPrice, pnl)))
  }

  // ---------------------------------------------------------------- metrics

  datatype Metrics = Metrics(
    availableCash: real, cryptoValue: real, accountValue: real, positions: seq<Position>,
    totalReturnPercent: real, sharpeRatio: Sharpe.SharpeValue, initialBalance: real)

  /** `parseFloat(pos.unrealized_pnl)` per position. */
  function UnrealizedPnls(ps: seq<Position>): (r: seq<real>)
    ensures |r| == |ps| && forall i :: 0 <= i < |ps| ==> r[i] == ps[i].unrealizedPnl
  {
    seq(|ps|, i requires 0 <= i < |ps| => ps[i].unrealizedPnl)
  }

  /** `parseFloat(order.realized_pnl || '0')` per order: a null PnL counts 0. */
  function RealizedPnls(os: seq<Order>): (r: seq<real>)
    ensures |r| == |os|
    ensures forall i :: 0 <= i < |os| ==> r[i] == os[i].realizedPnl.GetOr(0.0)
  {
    seq(|os|, i requires 0 <= i < |os| => os[i].realizedPnl.GetOr(0.0))
  }

  /** The Sharpe guard of `getAccountMetrics`: only with fills and a positive
      initial balance. */
  function LedgerSharpe(closed: seq<Order>, initial: real): Sharpe.SharpeValue
  {
    if |closed| > 0 && initial > 0.0 then Sharpe.SharpeOf(Sharpe.Returns(RealizedPnls(closed), initial))
    else Sharpe.NoSharpe
  }

  /** The percentage return over a positive initial balance, else 0. */
  function ReturnPercent(accountValue: real, initial: real): real
  {
    if initial > 0.0 then (accountValue - initial) / initial * 100.0 else 0.0
  }

  /** Over a positive initial balance, the balance grown by the percentage
      return is the account value; otherwise the return is 0. */
  lemma ReturnPercentRecoversValue(accountValue: real, initial: real)
    ensures initial <= 0.0 ==> ReturnPercent(accountValue, initial) == 0.0
    ensures initial > 0.0 ==> initial + initial * ReturnPercent(accountValue, initial) / 100.0 == accountValue
  {
    if initial > 0.0 {
      var q := (accountValue - initial) / initial;
      assert q * initial == accountValue - initial;
      assert initial * (q * 100.0) / 100.0 == accountValue - initial;
    }
  }

  /** `getAccountMetrics`; a missing account makes the source throw. */
  function AccountMetrics(t: Tables, accountId: Id): Result<Metrics, LedgerError>
  {
    match FindAccount(t.accounts, accountId)
    case None => Failure(AccountNotFound)
    case Some(account) =>
      var open := OpenPositions(t.positions, accountId);
      var closed := ClosedOrders(t.orders, accountId);
      var unrealized := Sum(UnrealizedPnls(open));
      var accountValue := account.currentBalance + unrealized;
      Success(Metrics(account.currentBalance, unrealized, accountValue, open,
                      ReturnPercent(accountValue, account.initialBalance),
                      LedgerSharpe(closed, account.initialBalance), account.initialBalance))
  }

  /** A missing account is the only failure. Otherwise the cash is the
      balance, the crypto value the open positions' unrealized PnL, the
      account value their sum, and the return and Sharpe value are 0 and
      none unless the initial balance is positive; there is no Sharpe value
      without fills. */
  lemma AccountMetricsSpec(t: Tables, accountId: Id)
    ensures var r := AccountMetrics(t, accountId);
      (r.Failure? <==> FindAccount(t.accounts, accountId).None?) &&
      (r.Failure? ==> r.error == AccountNotFound) &&
      (r.Success? ==>
        var a := FindAccount(t.accounts, accountId).value;
        var m := r.value;
        m.availableCash == a.currentBalance &&
        m.initialBalance == a.initialBalance &&
        m.positions == OpenPositions(t.positions, accountId) &&
        m.cryptoValue == Sum(UnrealizedPnls(m.positions)) &&
        m.accountValue == m.availableCash + m.cryptoValue &&
        m.totalReturnPercent == ReturnPercent(m.accountValue, a.initialBalance) &&
        (a.initialBalance <= 0.0 ==> m.totalReturnPercent == 0.0 && m.sharpeRatio == Sharpe.NoSharpe) &&
        (|ClosedOrders(t.orders, accountId)| == 0 ==> m.sharpeRatio == Sharpe.NoSharpe))
  {
    var r := AccountMetrics(t, accountId);
    if r.Success? {
      var a := FindAccount(t.accounts, accountId).value;
      var accountValue := a.currentBalance + Sum(UnrealizedPnls(OpenPositions(t.positions, accountId)));
      assert r.value.accountValue == accountValue;
      assert r.value.totalReturnPercent == ReturnPercent(accountValue, a.initialBalance);
    }
  }
}
