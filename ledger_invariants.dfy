/** The invariant the ledger's transitions keep, and what each successful
    transition does to the rows it touches. */
module LedgerInvariants {
  import opened Wrappers
  import opened Ledger
  import ExchangeConfig
  import Sharpe

  // ---------------------------------------------------------------- the invariant

  predicate UniqueAccountIds(accs: seq<Account>)
  {
    forall i, j :: 0 <= i < j < |accs| ==> accs[i].id != accs[j].id
  }

  predicate UniquePositionIds(ps: seq<Position>)
  {
    forall i, j :: 0 <= i < j < |ps| ==> ps[i].id != ps[j].id
  }

  predicate UniqueOrderIds(os: seq<Order>)
  {
    forall i, j :: 0 <= i < j < |os| ==> os[i].id != os[j].id
  }

  /** Every id is below the next id to be drawn. */
  predicate IdsBelow(t: Tables)
  {
    (forall i :: 0 <= i < |t.accounts| ==> t.accounts[i].id < t.nextId) &&
    (forall i :: 0 <= i < |t.positions| ==> t.positions[i].id < t.nextId) &&
    (forall i :: 0 <= i < |t.orders| ==> t.orders[i].id < t.nextId)
  }

  /** At most one open position per (account, symbol). */
  predicate AtMostOneOpen(ps: seq<Position>)
  {
    forall i, j :: 0 <= i < j < |ps| && ps[i].isOpen && ps[j].isOpen && ps[i].accountId == ps[j].accountId ==>
      ps[i].symbol != ps[j].symbol
  }

  /** Positions and orders refer to existing accounts, orders to existing
      positions. */
  predicate HasAccount(accs: seq<Account>, id: Id)
  {
    exists j :: 0 <= j < |accs| && accs[j].id == id
  }

  predicate HasPosition(ps: seq<Position>, id: Id)
  {
    exists j :: 0 <= j < |ps| && ps[j].id == id
  }

  predicate References(t: Tables)
  {
    (forall i :: 0 <= i < |t.positions| ==> HasAccount(t.accounts, t.positions[i].accountId)) &&
    (forall i :: 0 <= i < |t.orders| ==> HasAccount(t.accounts, t.orders[i].accountId)) &&
    (forall i :: 0 <= i < |t.orders| && t.orders[i].positionId.Some? ==>
      HasPosition(t.positions, t.orders[i].positionId.value))
  }

  predicate Valid(t: Tables)
  {
    UniqueAccountIds(t.accounts) && UniquePositionIds(t.positions) && UniqueOrderIds(t.orders) &&
    IdsBelow(t) && AtMostOneOpen(t.positions) && References(t)
  }

  /** The empty database. */
  lemma EmptyIsValid()
    ensures Valid(Tables([], [], [], 0))
  {
  }

  // ---------------------------------------------------------------- lookups after updates

  lemma {:induction false} FindAccountSetBalance(accs: seq<Account>, id: Id, b: real, x: Id)
    ensures FindAccount(SetBalance(accs, id, b), x) ==
      if FindAccount(accs, x).None? then None
      else Some(if x == id then FindAccount(accs, x).value.(currentBalance := b) else FindAccount(accs, x).value)
  {
    if |accs| > 0 {
      assert SetBalance(accs, id, b)[1..] == SetBalance(accs[1..], id, b);
      FindAccountSetBalance(accs[1..], id, b, x);
    }
  }

  lemma {:induction false} FindAccountSetBalanceAndPnl(accs: seq<Account>, id: Id, b: real, p: real, x: Id)
    ensures FindAccount(SetBalanceAndPnl(accs, id, b, p), x) ==
      if FindAccount(accs, x).None? then None
      else Some(if x == id then FindAccount(accs, x).value.(currentBalance := b, totalPnl := p) else FindAccount(accs, x).value)
  {
    if |accs| > 0 {
      assert SetBalanceAndPnl(accs, id, b, p)[1..] == SetBalanceAndPnl(accs[1..], id, b, p);
      FindAccountSetBalanceAndPnl(accs[1..], id, b, p, x);
    }
  }

  lemma {:induction false} FindAccountAppend(accs: seq<Account>, a: Account, x: Id)
    ensures FindAccount(accs + [a], x) ==
      if FindAccount(accs, x).Some? then FindAccount(accs, x) else if a.id == x then Some(a) else None
  {
    if |accs| > 0 {
      assert (accs + [a])[1..] == accs[1..] + [a];
      FindAccountAppend(accs[1..], a, x);
    }
  }

  lemma {:induction false} FindPositionAppend(ps: seq<Position>, p: Position, x: Id)
    ensures FindPosition(ps + [p], x) ==
      if FindPosition(ps, x).Some? then FindPosition(ps, x) else if p.id == x then Some(p) else None
  {
    if |ps| > 0 {
      assert (ps + [p])[1..] == ps[1..] + [p];
      FindPositionAppend(ps[1..], p, x);
    }
  }

  lemma {:induction false} FindPositionSetQuantity(ps: seq<Position>, id: Id, q: real, x: Id)
    ensures FindPosition(SetQuantity(ps, id, q), x) ==
      if FindPosition(ps, x).None? then None
      else Some(if x == id then FindPosition(ps, x).value.(quantity := q) else FindPosition(ps, x).value)
  {
    if |ps| > 0 {
      assert SetQuantity(ps, id, q)[1..] == SetQuantity(ps[1..], id, q);
      FindPositionSetQuantity(ps[1..], id, q, x);
    }
  }

  lemma {:induction false} FindPositionMarkClosed(ps: seq<Position>, id: Id, x: Id)
    ensures FindPosition(MarkClosed(ps, id), x) ==
      if FindPosition(ps, x).None? then None
      else Some(if x == id then FindPosition(ps, x).value.(isOpen := false) else FindPosition(ps, x).value)
  {
    if |ps| > 0 {
      assert MarkClosed(ps, id)[1..] == MarkClosed(ps[1..], id);
      FindPositionMarkClosed(ps[1..], id, x);
    }
  }

  lemma {:induction false} FindPositionSetMark(ps: seq<Position>, id: Id, c: real, u: real, x: Id)
    ensures FindPosition(SetMark(ps, id, c, u), x) ==
      if FindPosition(ps, x).None? then None
      else Some(if x == id then FindPosition(ps, x).value.(currentPrice := c, unrealizedPnl := u) else FindPosition(ps, x).value)
  {
    if |ps| > 0 {
      assert SetMark(ps, id, c, u)[1..] == SetMark(ps[1..], id, c, u);
      FindPositionSetMark(ps[1..], id, c, u, x);
    }
  }

  /** Under the invariant, the open position for (account, symbol) is the
      only one there is. */
  lemma FindOpenPositionUnique(t: Tables, p: Position)
    requires AtMostOneOpen(t.positions)
    requires p in t.positions && p.isOpen
    ensures FindOpenPosition(t, p.accountId, p.symbol) == Some(p)
  {
    var q := FindOpenPosition(t, p.accountId, p.symbol).value;
    var i :| 0 <= i < |t.positions| && t.positions[i] == p;
    var j :| 0 <= j < |t.positions| && t.positions[j] == q;
    if i < j {
      assert false;
    } else if j < i {
      assert false;
    }
  }

  /** Ids are unique, so the row found by id is the row at that index. */
  lemma FindPositionAt(ps: seq<Position>, i: nat)
    requires UniquePositionIds(ps) && i < |ps|
    ensures FindPosition(ps, ps[i].id) == Some(ps[i])
  {
    var q := FindPosition(ps, ps[i].id).value;
    var j :| 0 <= j < |ps| && ps[j] == q;
    if i < j {
      assert false;
    } else if j < i {
      assert false;
    }
  }

  lemma FindAccountAt(accs: seq<Account>, i: nat)
    requires UniqueAccountIds(accs) && i < |accs|
    ensures FindAccount(accs, accs[i].id) == Some(accs[i])
  {
    var q := FindAccount(accs, accs[i].id).value;
    var j :| 0 <= j < |accs| && accs[j] == q;
    if i < j {
      assert false;
    } else if j < i {
      assert false;
    }
  }

  // ---------------------------------------------------------------- getOrCreateAccount

  /** The existing first account comes back untouched; otherwise the new row
      is seeded with the given balance and zero PnL. */
  lemma GetOrCreateAccountEffects(t: Tables, initialBalance: real)
    requires Valid(t)
    ensures Valid(GetOrCreateAccount(t, initialBalance).1)
    ensures var (a, t') := GetOrCreateAccount(t, initialBalance);
      FindAccount(t'.accounts, a.id) == Some(a) &&
      (|t.accounts| == 0 ==> a.initialBalance == initialBalance && a.currentBalance == initialBalance && a.totalPnl == 0.0)
  {
    var (a, t') := GetOrCreateAccount(t, initialBalance);
    if |t.accounts| > 0 {
      FindAccountAt(t.accounts, 0);
    }
  }

  // ---------------------------------------------------------------- createPosition

  /** A successful open appends one open position at the given price with
      leverage 1 and one FILLED MARKET order linked to it, moves the
      account's balance by `price * quantity` (up for BUY, down for SELL) and
      leaves its total PnL and every other row alone. */
  lemma CreatePositionEffects(t: Tables, accountId: Id, symbol: string, side: Side, quantity: real, price: real,
                              agentInvocationId: Option<string>)
    requires Valid(t)
    ensures var s := CreatePosition(t, accountId, symbol, side, quantity, price, agentInvocationId);
      s.result.Success? ==>
        var p := s.result.value.position;
        var o := s.result.value.order;
        var a := FindAccount(t.accounts, accountId).value;
        s.after.positions == t.positions + [p] &&
        p.accountId == accountId && p.symbol == symbol && p.side == side && p.quantity == quantity &&
        p.isOpen && p.entryPrice == price && p.currentPrice == price && p.unrealizedPnl == 0.0 && p.leverage == 1 &&
        s.after.orders == t.orders + [o] &&
        o.status == FILLED && o.orderType == MARKET && o.side == side && o.quantity == quantity &&
        o.price == Some(price) && o.filledPrice == Some(price) && o.positionId == Some(p.id) &&
        o.realizedPnl.None? && o.accountId == accountId &&
        FindAccount(s.after.accounts, accountId) ==
          Some(a.(currentBalance := a.currentBalance + FillValue(side, price, quantity))) &&
        (forall x :: x != accountId ==> FindAccount(s.after.accounts, x) == FindAccount(t.accounts, x))
  {
    var s := CreatePosition(t, accountId, symbol, side, quantity, price, agentInvocationId);
    if s.result.Success? {
      var a := FindAccount(t.accounts, accountId).value;
      var nb := a.currentBalance + FillValue(side, price, quantity);
      assert s.after.accounts == SetBalance(t.accounts, accountId, nb);
      FindAccountSetBalance(t.accounts, accountId, nb, accountId);
      forall x | x != accountId ensures FindAccount(s.after.accounts, x) == FindAccount(t.accounts, x) {
        FindAccountSetBalance(t.accounts, accountId, nb, x);
      }
    }
  }

  /** The tables a successful open leaves behind. */
  lemma CreatePositionShape(t: Tables, accountId: Id, symbol: string, side: Side, quantity: real, price: real,
                            agentInvocationId: Option<string>)
    requires CreatePosition(t, accountId, symbol, side, quantity, price, agentInvocationId).result.Success?
    ensures var s := CreatePosition(t, accountId, symbol, side, quantity, price, agentInvocationId);
      var p := s.result.value.position;
      var o := s.result.value.order;
      FindAccount(t.accounts, accountId).Some? && FindOpenPosition(t, accountId, symbol).None? &&
      p.id == t.nextId && p.isOpen && p.accountId == accountId && p.symbol == symbol &&
      o.id == t.nextId + 1 && o.accountId == accountId && o.positionId == Some(p.id) &&
      exists nb :: s.after == Tables(SetBalance(t.accounts, accountId, nb), t.positions + [p], t.orders + [o], t.nextId + 2)
  {
    var s := CreatePosition(t, accountId, symbol, side, quantity, price, agentInvocationId);
    var a := FindAccount(t.accounts, accountId).value;
    var nb := a.currentBalance + FillValue(side, price, quantity);
    assert s.after == Tables(SetBalance(t.accounts, accountId, nb), t.positions + [s.result.value.position],
                             t.orders + [s.result.value.order], t.nextId + 2);
  }

  lemma OpenKeepsIds(t: Tables, accountId: Id, nb: real, p: Position, o: Order)
    requires Valid(t)
    requires p.id == t.nextId && o.id == t.nextId + 1
    ensures var t' := Tables(SetBalance(t.accounts, accountId, nb), t.positions + [p], t.orders + [o], t.nextId + 2);
      UniqueAccountIds(t'.accounts) && UniquePositionIds(t'.positions) && UniqueOrderIds(t'.orders) && IdsBelow(t')
  {
  }

  lemma OpenKeepsOneOpen(t: Tables, accountId: Id, symbol: string, p: Position)
    requires AtMostOneOpen(t.positions)
    requires p.accountId == accountId && p.symbol == symbol && FindOpenPosition(t, accountId, symbol).None?
    ensures AtMostOneOpen(t.positions + [p])
  {
    var ps := t.positions + [p];
    forall i, j | 0 <= i < j < |ps| && ps[i].isOpen && ps[j].isOpen && ps[i].accountId == ps[j].accountId
      ensures ps[i].symbol != ps[j].symbol
    {
      if j == |t.positions| {
        assert t.positions[i] in t.positions;
      }
    }
  }

  lemma OpenKeepsReferences(t: Tables, accountId: Id, nb: real, p: Position, o: Order)
    requires References(t)
    requires FindAccount(t.accounts, accountId).Some? && p.accountId == accountId && o.accountId == accountId
    requires o.positionId == Some(p.id)
    ensures References(Tables(SetBalance(t.accounts, accountId, nb), t.positions + [p], t.orders + [o], t.nextId + 2))
  {
    var t' := Tables(SetBalance(t.accounts, accountId, nb), t.positions + [p], t.orders + [o], t.nextId + 2);
    forall x | HasAccount(t.accounts, x) ensures HasAccount(t'.accounts, x) {
      var j :| 0 <= j < |t.accounts| && t.accounts[j].id == x;
      assert t'.accounts[j].id == x;
    }
    assert HasAccount(t.accounts, accountId);
    forall x | HasPosition(t.positions, x) ensures HasPosition(t'.positions, x) {
      var j :| 0 <= j < |t.positions| && t.positions[j].id == x;
      assert t'.positions[j].id == x;
    }
    assert t'.positions[|t.positions|].id == p.id;
  }

  /** Opening keeps the invariant: in particular the guard against an
      existing open position keeps at most one open position per
      (account, symbol). */
  lemma CreatePreservesValid(t: Tables, accountId: Id, symbol: string, side: Side, quantity: real, price: real,
                             agentInvocationId: Option<string>)
    requires Valid(t)
    ensures Valid(CreatePosition(t, accountId, symbol, side, quantity, price, agentInvocationId).after)
  {
    var s := CreatePosition(t, accountId, symbol, side, quantity, price, agentInvocationId);
    if s.result.Success? {
      CreatePositionShape(t, accountId, symbol, side, quantity, price, agentInvocationId);
      var p := s.result.value.position;
      var o := s.result.value.order;
      var nb :| s.after == Tables(SetBalance(t.accounts, accountId, nb), t.positions + [p], t.orders + [o], t.nextId + 2);
      OpenKeepsIds(t, accountId, nb, p, o);
      OpenKeepsOneOpen(t, accountId, symbol, p);
      OpenKeepsReferences(t, accountId, nb, p, o);
    }
  }

  /** A second open of the same symbol is refused until the first is closed. */
  lemma CreateTwiceFails(t: Tables, accountId: Id, symbol: string, side: Side, side2: Side, quantity: real, quantity2: real,
                         price: real, price2: real, id1: Option<string>, id2: Option<string>)
    requires Valid(t)
    requires CreatePosition(t, accountId, symbol, side, quantity, price, id1).result.Success?
    ensures var t' := CreatePosition(t, accountId, symbol, side, quantity, price, id1).after;
      CreatePosition(t', accountId, symbol, side2, quantity2, price2, id2).result == Failure(PositionAlreadyExists)
  {
    var s := CreatePosition(t, accountId, symbol, side, quantity, price, id1);
    CreatePositionEffects(t, accountId, symbol, side, quantity, price, id1);
    var p := s.result.value.position;
    assert p in s.after.positions;
    assert FindAccount(s.after.accounts, accountId).Some?;
  }

  /** The opening fill becomes the newest FILLED order of the account: it
      enters the front of the Sharpe return series with a PnL of 0. */
  lemma CreatePrependsFill(t: Tables, accountId: Id, symbol: string, side: Side, quantity: real, price: real,
                           agentInvocationId: Option<string>)
    requires CreatePosition(t, accountId, symbol, side, quantity, price, agentInvocationId).result.Success?
    ensures var s := CreatePosition(t, accountId, symbol, side, quantity, price, agentInvocationId);
      ClosedOrders(s.after.orders, accountId) == [s.result.value.order] + ClosedOrders(t.orders, accountId) &&
      RealizedPnls([s.result.value.order]) == [0.0]
  {
    var s := CreatePosition(t, accountId, symbol, side, quantity, price, agentInvocationId);
    assert (t.orders + [s.result.value.order])[..|t.orders|] == t.orders;
  }

  // ---------------------------------------------------------------- closePosition

  /** A successful close is the guarded write sequence. */
  lemma ClosePositionShape(t: Tables, accountId: Id, symbol: string, quantity: Option<real>,
                           agentInvocationId: Option<string>)
    requires ClosePosition(t, accountId, symbol, quantity, agentInvocationId).result.Success?
    ensures FindAccount(t.accounts, accountId).Some? && FindOpenPosition(t, accountId, symbol).Some?
    ensures ClosePosition(t, accountId, symbol, quantity, agentInvocationId) ==
      ApplyClose(t, FindAccount(t.accounts, accountId).value, FindOpenPosition(t, accountId, symbol).value,
                 quantity, agentInvocationId)
  {
  }

  /** A successful close closes `min(quantity, existing)` (everything when no
      or a zero quantity is given), never more than the position holds, and
      realizes the directional PnL at the stored current price. */
  lemma CloseQuantityEffects(t: Tables, accountId: Id, symbol: string, quantity: Option<real>,
                             agentInvocationId: Option<string>)
    requires ClosePosition(t, accountId, symbol, quantity, agentInvocationId).result.Success?
    ensures var s := ClosePosition(t, accountId, symbol, quantity, agentInvocationId);
      var e := FindOpenPosition(t, accountId, symbol).value;
      var c := s.result.value.closedQuantity;
      0.0 <= e.quantity - c &&
      ((quantity.None? || quantity.value == 0.0) ==> c == e.quantity) &&
      (quantity.Some? && quantity.value != 0.0 && quantity.value <= e.quantity ==> c == quantity.value) &&
      (quantity.Some? && quantity.value != 0.0 && quantity.value > e.quantity ==> c == e.quantity) &&
      s.result.value.realizedPnl == DirectionalPnl(e.side, e.entryPrice, e.currentPrice, c)
  {
    ClosePositionShape(t, accountId, symbol, quantity, agentInvocationId);
  }

  /** The account row after closing `c` of a `side` position at `price`
      with realized PnL `r`: the balance takes the opposite-side fill and the
      PnL, the total PnL takes the PnL. */
  function ClosedAccount(a: Account, side: Side, price: real, c: real, r: real): Account
  {
    a.(currentBalance := a.currentBalance + FillValue(Opposite(side), price, c) + r, totalPnl := a.totalPnl + r)
  }

  /** The position rows after closing `c` of row `e`: the rest stays open at
      the old entry price, or the row is marked closed with its quantity left
      as it was; every other row is as before. */
  ghost predicate RowsAfterClose(before: seq<Position>, after: seq<Position>, e: Position, c: real)
  {
    (e.quantity - c > 0.0 ==> FindPosition(after, e.id) == Some(e.(quantity := e.quantity - c))) &&
    (e.quantity - c <= 0.0 ==> FindPosition(after, e.id) == Some(e.(isOpen := false))) &&
    (forall x :: x != e.id ==> FindPosition(after, x) == FindPosition(before, x))
  }

  /** The position rows after reducing row `e` to `remaining`: kept open
      with that quantity, or marked closed; others unchanged. */
  lemma ReducedRowLookups(ps: seq<Position>, e: Position, remaining: real, after: seq<Position>)
    requires UniquePositionIds(ps) && e in ps
    requires after == if remaining > 0.0 then SetQuantity(ps, e.id, remaining) else MarkClosed(ps, e.id)
    ensures remaining > 0.0 ==> FindPosition(after, e.id) == Some(e.(quantity := remaining))
    ensures remaining <= 0.0 ==> FindPosition(after, e.id) == Some(e.(isOpen := false))
    ensures forall x :: x != e.id ==> FindPosition(after, x) == FindPosition(ps, x)
  {
    var i :| 0 <= i < |ps| && ps[i] == e;
    FindPositionAt(ps, i);
    if remaining > 0.0 {
      FindPositionSetQuantity(ps, e.id, remaining, e.id);
      forall x | x != e.id ensures FindPosition(after, x) == FindPosition(ps, x) {
        FindPositionSetQuantity(ps, e.id, remaining, x);
      }
    } else {
      FindPositionMarkClosed(ps, e.id, e.id);
      forall x | x != e.id ensures FindPosition(after, x) == FindPosition(ps, x) {
        FindPositionMarkClosed(ps, e.id, x);
      }
    }
  }

  /** The rest stays open at the old entry price, or the position is marked
      closed with its quantity left as it was. */
  lemma ClosePositionRowEffects(t: Tables, accountId: Id, symbol: string, quantity: Option<real>,
                                agentInvocationId: Option<string>)
    requires Valid(t)
    requires ClosePosition(t, accountId, symbol, quantity, agentInvocationId).result.Success?
    ensures var s := ClosePosition(t, accountId, symbol, quantity, agentInvocationId);
      var e := FindOpenPosition(t, accountId, symbol).value;
      var c := s.result.value.closedQuantity;
      RowsAfterClose(t.positions, s.after.positions, e, c)
  {
    ClosePositionShape(t, accountId, symbol, quantity, agentInvocationId);
    ApplyCloseRowEffects(t, FindAccount(t.accounts, accountId).value, FindOpenPosition(t, accountId, symbol).value,
                         quantity, agentInvocationId);
  }

  lemma ApplyCloseRowEffects(t: Tables, a: Account, e: Position, quantity: Option<real>, agentInvocationId: Option<string>)
    requires UniquePositionIds(t.positions) && e in t.positions
    ensures var s := ApplyClose(t, a, e, quantity, agentInvocationId);
      var c := s.result.value.closedQuantity;
      RowsAfterClose(t.positions, s.after.positions, e, c)
  {
    var c := ClosingQuantity(quantity, e.quantity);
    ApplyClosePositions(t, a, e, quantity, agentInvocationId);
    ReducedRowLookups(t.positions, e, e.quantity - c, ApplyClose(t, a, e, quantity, agentInvocationId).after.positions);
  }

  lemma ApplyClosePositions(t: Tables, a: Account, e: Position, quantity: Option<real>, agentInvocationId: Option<string>)
    ensures var c := ClosingQuantity(quantity, e.quantity);
      ApplyClose(t, a, e, quantity, agentInvocationId).after.positions ==
        if e.quantity - c > 0.0 then SetQuantity(t.positions, e.id, e.quantity - c) else MarkClosed(t.positions, e.id)
  {
    var c := ClosingQuantity(quantity, e.quantity);
    if e.quantity - c > 0.0 {
      assert ApplyClose(t, a, e, quantity, agentInvocationId).after.positions == SetQuantity(t.positions, e.id, e.quantity - c);
    } else {
      assert ApplyClose(t, a, e, quantity, agentInvocationId).after.positions == MarkClosed(t.positions, e.id);
    }
  }

  lemma ApplyCloseAccounts(t: Tables, a: Account, e: Position, quantity: Option<real>, agentInvocationId: Option<string>)
    requires FindAccount(t.accounts, a.id) == Some(a)
    ensures var s := ApplyClose(t, a, e, quantity, agentInvocationId);
      var c := s.result.value.closedQuantity;
      var r := s.result.value.realizedPnl;
      FindAccount(s.after.accounts, a.id) ==
        Some(ClosedAccount(a, e.side, e.currentPrice, c, r)) &&
      forall x :: x != a.id ==> FindAccount(s.after.accounts, x) == FindAccount(t.accounts, x)
  {
    var s := ApplyClose(t, a, e, quantity, agentInvocationId);
    var c := s.result.value.closedQuantity;
    var r := s.result.value.realizedPnl;
    var nb := a.currentBalance + FillValue(Opposite(e.side), e.currentPrice, c) + r;
    var np := a.totalPnl + r;
    assert s.after.accounts == SetBalanceAndPnl(t.accounts, a.id, nb, np);
    FindAccountSetBalanceAndPnl(t.accounts, a.id, nb, np, a.id);
    forall x | x != a.id ensures FindAccount(s.after.accounts, x) == FindAccount(t.accounts, x) {
      FindAccountSetBalanceAndPnl(t.accounts, a.id, nb, np, x);
    }
  }

  /** One FILLED MARKET order on the opposite side records the fill at the
      stored current price, with the realized PnL and the position's id. */
  lemma CloseOrderEffects(t: Tables, accountId: Id, symbol: string, quantity: Option<real>,
                          agentInvocationId: Option<string>)
    requires ClosePosition(t, accountId, symbol, quantity, agentInvocationId).result.Success?
    ensures var s := ClosePosition(t, accountId, symbol, quantity, agentInvocationId);
      var e := FindOpenPosition(t, accountId, symbol).value;
      var o := s.result.value.order;
      s.after.orders == t.orders + [o] && s.after.nextId == t.nextId + 1 &&
      o.accountId == accountId && o.symbol == symbol &&
      o.side == Opposite(e.side) && o.status == FILLED && o.orderType == MARKET &&
      o.quantity == s.result.value.closedQuantity &&
      o.price == Some(e.currentPrice) && o.filledPrice == Some(e.currentPrice) &&
      o.realizedPnl == Some(s.result.value.realizedPnl) && o.positionId == Some(e.id)
  {
    ClosePositionShape(t, accountId, symbol, quantity, agentInvocationId);
  }

  /** The closing fill becomes the newest FILLED order of the account: it
      enters the front of the Sharpe return series with the realized PnL. */
  lemma ClosePrependsFill(t: Tables, accountId: Id, symbol: string, quantity: Option<real>,
                          agentInvocationId: Option<string>)
    requires ClosePosition(t, accountId, symbol, quantity, agentInvocationId).result.Success?
    ensures var s := ClosePosition(t, accountId, symbol, quantity, agentInvocationId);
      ClosedOrders(s.after.orders, accountId) == [s.result.value.order] + ClosedOrders(t.orders, accountId) &&
      RealizedPnls([s.result.value.order]) == [s.result.value.realizedPnl]
  {
    var s := ClosePosition(t, accountId, symbol, quantity, agentInvocationId);
    CloseOrderEffects(t, accountId, symbol, quantity, agentInvocationId);
    assert (t.orders + [s.result.value.order])[..|t.orders|] == t.orders;
  }

  /** The balance moves by the value of the opposite-side fill (`-price *
      closing` for a BUY position, `+price * closing` for a SELL one) plus the realized PnL, and
      the total PnL accumulates the realized PnL; other accounts are
      untouched. */
  lemma CloseAccountEffects(t: Tables, accountId: Id, symbol: string, quantity: Option<real>,
                            agentInvocationId: Option<string>, a: Account, e: Position)
    requires ExchangeConfig.IsSupportedSymbol(symbol)
    requires FindAccount(t.accounts, accountId) == Some(a) && FindOpenPosition(t, accountId, symbol) == Some(e)
    ensures var s := ClosePosition(t, accountId, symbol, quantity, agentInvocationId);
      var c := s.result.value.closedQuantity;
      var r := s.result.value.realizedPnl;
      s.result.Success? &&
      FindAccount(s.after.accounts, accountId) ==
        Some(ClosedAccount(a, e.side, e.currentPrice, c, r))
  {
    ClosePositionUnfold(t, accountId, symbol, quantity, agentInvocationId);
    ApplyCloseAccounts(t, a, e, quantity, agentInvocationId);
  }

  /** Past the guards, `closePosition` is its writes. */
  lemma ClosePositionUnfold(t: Tables, accountId: Id, symbol: string, quantity: Option<real>,
                            agentInvocationId: Option<string>)
    requires ExchangeConfig.IsSupportedSymbol(symbol)
    requires FindAccount(t.accounts, accountId).Some? && FindOpenPosition(t, accountId, symbol).Some?
    ensures ClosePosition(t, accountId, symbol, quantity, agentInvocationId) ==
      ApplyClose(t, FindAccount(t.accounts, accountId).value, FindOpenPosition(t, accountId, symbol).value,
                 quantity, agentInvocationId)
  {
  }

  /** Closing leaves every other account as it was. */
  lemma CloseOtherAccounts(t: Tables, accountId: Id, symbol: string, quantity: Option<real>,
                           agentInvocationId: Option<string>, x: Id)
    requires x != accountId
    ensures var s := ClosePosition(t, accountId, symbol, quantity, agentInvocationId);
      FindAccount(s.after.accounts, x) == FindAccount(t.accounts, x)
  {
    var s := ClosePosition(t, accountId, symbol, quantity, agentInvocationId);
    if s.result.Success? {
      ClosePositionShape(t, accountId, symbol, quantity, agentInvocationId);
      var e := FindOpenPosition(t, accountId, symbol).value;
      var a := FindAccount(t.accounts, accountId).value;
      ApplyCloseAccounts(t, a, e, quantity, agentInvocationId);
    }
  }

  /** The position rows after a close: same ids, accounts and symbols; a row
      can only go from open to closed. */
  predicate Reduced(before: seq<Position>, after: seq<Position>)
  {
    |after| == |before| &&
    forall k :: 0 <= k < |after| ==>
      after[k].id == before[k].id && after[k].accountId == before[k].accountId &&
      after[k].symbol == before[k].symbol && (after[k].isOpen ==> before[k].isOpen)
  }

  lemma ReducedKeepsPositionInvariant(t: Tables, ps: seq<Position>)
    requires Valid(t) && Reduced(t.positions, ps)
    ensures UniquePositionIds(ps) && AtMostOneOpen(ps)
    ensures forall k :: 0 <= k < |ps| ==> ps[k].id < t.nextId
  {
  }

  /** The rows `ApplyClose` touches, in the terms the invariant needs. */
  lemma ApplyCloseStructure(t: Tables, a: Account, e: Position, quantity: Option<real>,
                            agentInvocationId: Option<string>)
    requires a in t.accounts && e in t.positions
    ensures var s := ApplyClose(t, a, e, quantity, agentInvocationId);
      var o := s.result.value.order;
      Reduced(t.positions, s.after.positions) &&
      s.after.orders == t.orders + [o] && s.after.nextId == t.nextId + 1 &&
      o.id == t.nextId && o.accountId == a.id && o.positionId == Some(e.id) &&
      HasPosition(t.positions, e.id) && HasAccount(t.accounts, a.id) &&
      exists nb, np :: s.after.accounts == SetBalanceAndPnl(t.accounts, a.id, nb, np)
  {
    var s := ApplyClose(t, a, e, quantity, agentInvocationId);
    ApplyClosePositions(t, a, e, quantity, agentInvocationId);
    var c := s.result.value.closedQuantity;
    var r := s.result.value.realizedPnl;
    var nb := a.currentBalance + FillValue(Opposite(e.side), e.currentPrice, c) + r;
    assert s.after.accounts == SetBalanceAndPnl(t.accounts, a.id, nb, a.totalPnl + r);
    var i :| 0 <= i < |t.positions| && t.positions[i] == e;
    var j :| 0 <= j < |t.accounts| && t.accounts[j] == a;
  }

  /** The rows a successful close touches, in the terms the invariant needs. */
  lemma CloseStructure(t: Tables, accountId: Id, symbol: string, quantity: Option<real>,
                       agentInvocationId: Option<string>)
    requires ClosePosition(t, accountId, symbol, quantity, agentInvocationId).result.Success?
    ensures var s := ClosePosition(t, accountId, symbol, quantity, agentInvocationId);
      var o := s.result.value.order;
      Reduced(t.positions, s.after.positions) &&
      s.after.orders == t.orders + [o] && s.after.nextId == t.nextId + 1 &&
      o.id == t.nextId && o.accountId == accountId && o.positionId.Some? &&
      HasPosition(t.positions, o.positionId.value) && HasAccount(t.accounts, accountId) &&
      exists nb, np :: s.after.accounts == SetBalanceAndPnl(t.accounts, accountId, nb, np)
  {
    ClosePositionShape(t, accountId, symbol, quantity, agentInvocationId);
    ApplyCloseStructure(t, FindAccount(t.accounts, accountId).value, FindOpenPosition(t, accountId, symbol).value,
                        quantity, agentInvocationId);
  }

  lemma CloseKeepsReferences(t: Tables, nb: real, np: real, accountId: Id, ps: seq<Position>, o: Order)
    requires References(t) && Reduced(t.positions, ps)
    requires HasAccount(t.accounts, accountId) && o.accountId == accountId
    requires o.positionId.Some? && HasPosition(t.positions, o.positionId.value)
    ensures References(Tables(SetBalanceAndPnl(t.accounts, accountId, nb, np), ps, t.orders + [o], t.nextId + 1))
  {
    var t' := Tables(SetBalanceAndPnl(t.accounts, accountId, nb, np), ps, t.orders + [o], t.nextId + 1);
    forall x | HasAccount(t.accounts, x) ensures HasAccount(t'.accounts, x) {
      var j :| 0 <= j < |t.accounts| && t.accounts[j].id == x;
      assert t'.accounts[j].id == x;
    }
    forall x | HasPosition(t.positions, x) ensures HasPosition(ps, x) {
      var j :| 0 <= j < |t.positions| && t.positions[j].id == x;
      assert ps[j].id == x;
    }
  }

  lemma CloseTablesValid(t: Tables, nb: real, np: real, accountId: Id, ps: seq<Position>, o: Order)
    requires Valid(t) && Reduced(t.positions, ps)
    requires HasAccount(t.accounts, accountId) && o.accountId == accountId && o.id == t.nextId
    requires o.positionId.Some? && HasPosition(t.positions, o.positionId.value)
    ensures Valid(Tables(SetBalanceAndPnl(t.accounts, accountId, nb, np), ps, t.orders + [o], t.nextId + 1))
  {
    ReducedKeepsPositionInvariant(t, ps);
    CloseKeepsReferences(t, nb, np, accountId, ps, o);
  }

  /** Closing keeps the invariant. */
  lemma ClosePreservesValid(t: Tables, accountId: Id, symbol: string, quantity: Option<real>,
                            agentInvocationId: Option<string>)
    requires Valid(t)
    ensures Valid(ClosePosition(t, accountId, symbol, quantity, agentInvocationId).after)
  {
    var s := ClosePosition(t, accountId, symbol, quantity, agentInvocationId);
    if s.result.Success? {
      CloseStructure(t, accountId, symbol, quantity, agentInvocationId);
      var nb, np :| s.after.accounts == SetBalanceAndPnl(t.accounts, accountId, nb, np);
      CloseTablesValid(t, nb, np, accountId, s.after.positions, s.result.value.order);
    }
  }

  // ---------------------------------------------------------------- updatePositionPnL

  /** Marking changes only that position's current price and unrealized PnL. */
  lemma UpdatePositionPnLEffects(t: Tables, positionId: Id, currentPrice: real)
    ensures var s := UpdatePositionPnL(t, positionId, currentPrice);
      s.result.Success? ==>
        var p := FindPosition(t.positions, positionId).value;
        s.result.value == p.(currentPrice := currentPrice, unrealizedPnl := DirectionalPnl(p.side, p.entryPrice, currentPrice, p.quantity)) &&
        FindPosition(s.after.positions, positionId) == Some(s.result.value) &&
        (forall x :: x != positionId ==> FindPosition(s.after.positions, x) == FindPosition(t.positions, x))
  {
    var s := UpdatePositionPnL(t, positionId, currentPrice);
    if s.result.Success? {
      var p := FindPosition(t.positions, positionId).value;
      var u := DirectionalPnl(p.side, p.entryPrice, currentPrice, p.quantity);
      FindPositionSetMark(t.positions, positionId, currentPrice, u, positionId);
      forall x | x != positionId ensures FindPosition(s.after.positions, x) == FindPosition(t.positions, x) {
        FindPositionSetMark(t.positions, positionId, currentPrice, u, x);
      }
    }
  }

  /** Marking keeps the invariant. */
  lemma UpdatePreservesValid(t: Tables, positionId: Id, currentPrice: real)
    requires Valid(t)
    ensures Valid(UpdatePositionPnL(t, positionId, currentPrice).after)
  {
    var s := UpdatePositionPnL(t, positionId, currentPrice);
    if s.result.Success? {
      var p := FindPosition(t.positions, positionId).value;
      var u := DirectionalPnl(p.side, p.entryPrice, currentPrice, p.quantity);
      var ps := SetMark(t.positions, positionId, currentPrice, u);
      assert s.after == t.(positions := ps);
      assert Reduced(t.positions, ps);
      ReducedKeepsPositionInvariant(t, ps);
      forall x | HasPosition(t.positions, x) ensures HasPosition(ps, x) {
        var j :| 0 <= j < |t.positions| && t.positions[j].id == x;
        assert ps[j].id == x;
      }
    }
  }

  // ---------------------------------------------------------------- round trip

  /** The cash legs of an open and of its full close cancel against the
      realized PnL: the opening fill credits `FillValue(side, entry, q)`, the
      closing fill `FillValue(Opposite(side), price, q)`, and adding the PnL
      brings the sum back to zero. */
  lemma FlatFillsCancel(side: Side, entry: real, price: real, q: real)
    ensures FillValue(side, entry, q) + FillValue(Opposite(side), price, q) + DirectionalPnl(side, entry, price, q) == 0.0
  {
    if side == BUY {
      assert DirectionalPnl(side, entry, price, q) == price * q - entry * q;
    } else {
      assert DirectionalPnl(side, entry, price, q) == entry * q - price * q;
    }
  }

  lemma ApplyFullClose(t: Tables, a: Account, e: Position, agentInvocationId: Option<string>)
    requires FindAccount(t.accounts, a.id) == Some(a) && FindPosition(t.positions, e.id) == Some(e)
    ensures var s := ApplyClose(t, a, e, None, agentInvocationId);
      var r := DirectionalPnl(e.side, e.entryPrice, e.currentPrice, e.quantity);
      s.result.value.closedQuantity == e.quantity && s.result.value.realizedPnl == r &&
      FindAccount(s.after.accounts, a.id) ==
        Some(ClosedAccount(a, e.side, e.currentPrice, e.quantity, r)) &&
      FindPosition(s.after.positions, e.id) == Some(e.(isOpen := false))
  {
    var s := ApplyClose(t, a, e, None, agentInvocationId);
    ApplyCloseAccounts(t, a, e, None, agentInvocationId);
    assert s.after.positions == MarkClosed(t.positions, e.id);
    FindPositionMarkClosed(t.positions, e.id, e.id);
  }

  /** Closing without a quantity closes the whole position at its stored
      current price and marks the row closed. */
  lemma FullClose(t: Tables, accountId: Id, symbol: string, agentInvocationId: Option<string>, a: Account, e: Position)
    requires ExchangeConfig.IsSupportedSymbol(symbol)
    requires FindAccount(t.accounts, accountId) == Some(a) && FindOpenPosition(t, accountId, symbol) == Some(e)
    requires FindPosition(t.positions, e.id) == Some(e)
    ensures var s := ClosePosition(t, accountId, symbol, None, agentInvocationId);
      var r := DirectionalPnl(e.side, e.entryPrice, e.currentPrice, e.quantity);
      s.result.Success? && s.result.value.closedQuantity == e.quantity && s.result.value.realizedPnl == r &&
      FindAccount(s.after.accounts, accountId) ==
        Some(ClosedAccount(a, e.side, e.currentPrice, e.quantity, r)) &&
      FindPosition(s.after.positions, e.id) == Some(e.(isOpen := false))
  {
    var s := ApplyClose(t, a, e, None, agentInvocationId);
    assert ClosePosition(t, accountId, symbol, None, agentInvocationId) == s;
    ApplyFullClose(t, a, e, agentInvocationId);
  }

  /** The account row after an open at `entry` and a full close at `price`
      (the open's credit, then the closing fill's credit and the realized PnL,
      as `FullClose` and `CreatePositionEffects` state them): the current
      balance is back where it started and the PnL only shows in the total. */
  lemma RoundTripAccount(a: Account, side: Side, entry: real, price: real, quantity: real)
    ensures var r := DirectionalPnl(side, entry, price, quantity);
      var a1 := a.(currentBalance := a.currentBalance + FillValue(side, entry, quantity));
      ClosedAccount(a1, side, price, quantity, r) == a.(totalPnl := a.totalPnl + r)
  {
    FlatFillsCancel(side, entry, price, quantity);
  }

  // ---------------------------------------------------------------- getAccountMetrics

  /** The ledger reports a Sharpe value exactly when the initial balance is
      positive and some FILLED order other than the newest carries a non-zero
      realized PnL: the newest order only fixes the level of the cumulative
      series, and an account whose fills are all openings has none. */
  lemma LedgerSharpeDefinedIff(closed: seq<Order>, initial: real)
    ensures LedgerSharpe(closed, initial).Ratio? <==>
      initial > 0.0 && exists j :: 1 <= j < |closed| && closed[j].realizedPnl.GetOr(0.0) != 0.0
  {
    if |closed| > 0 && initial > 0.0 {
      var pnls := RealizedPnls(closed);
      Sharpe.SharpeDefinedIff(pnls, initial);
      assert (exists j :: 1 <= j < |pnls| && pnls[j] != 0.0) <==>
        (exists j :: 1 <= j < |closed| && closed[j].realizedPnl.GetOr(0.0) != 0.0);
    }
  }
}
