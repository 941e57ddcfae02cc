/** The open-positions view of the dashboard: the open positions joined with
    their accounts, grouped per account in first-seen order, with each
    account's total unrealized PnL and a cash estimate net of the margin its
    positions use. */
module PositionsView {
  import opened Wrappers
  import opened RealSeqs
  import Seqs

  /** The leverage column; the margin divides by it, so it is never 0. */
  type Leverage = x: int | x != 0 witness 1

  datatype AccountRow = AccountRow(id: string, initialBalance: real, currentBalance: real, totalPnl: real)

  datatype PositionRow = PositionRow(id: string, accountId: string, symbol: string, side: string,
                                     quantity: real, entryPrice: real, currentPrice: real,
                                     unrealizedPnl: real, leverage: Leverage, isOpen: bool)

  /** One result row of the position/account join, in `created_at` order. */
  datatype JoinedRow = JoinedRow(position: PositionRow, account: AccountRow)

  /** A position as the view shows it. */
  datatype PositionView = PositionView(id: string, symbol: string, side: string, quantity: real,
                                       entryPrice: real, currentPrice: real, unrealizedPnl: real,
                                       leverage: Leverage, isOpen: bool)

  /** One account's group. */
  datatype AccountPositions = AccountPositions(accountId: string, account: AccountRow,
                                               positions: seq<PositionView>,
                                               totalUnrealizedPnl: real, availableCash: real)

  /** BUY shows as LONG, SELL as SHORT; any other side passes through. */
  function SideDisplay(side: string): (r: string)
    ensures side == "BUY" ==> r == "LONG"
    ensures side == "SELL" ==> r == "SHORT"
    ensures side != "BUY" && side != "SELL" ==> r == side
    ensures r == "LONG" <==> side == "BUY" || side == "LONG"
  {
    if side == "BUY" then "LONG" else if side == "SELL" then "SHORT" else side
  }

  function View(p: PositionRow): PositionView
  {
    PositionView(p.id, p.symbol, SideDisplay(p.side), p.quantity, p.entryPrice, p.currentPrice,
                 p.unrealizedPnl, p.leverage, p.isOpen)
  }

  function Abs(x: real): (r: real)
    ensures r >= 0.0 && (r == x || r == -x)
  {
    if x < 0.0 then -x else x
  }

  /** The margin a position uses: its notional over its leverage. */
  function Margin(v: PositionView): real
  {
    Abs(v.quantity * v.currentPrice) / (v.leverage as real)
  }

  /** The `where is_open` of the query. */
  function OpenRows(rows: seq<JoinedRow>): (r: seq<JoinedRow>)
    ensures forall i :: 0 <= i < |r| ==> r[i].position.isOpen
    ensures forall x :: x in r <==> x in rows && x.position.isOpen
    ensures |r| <= |rows|
  {
    if |rows| == 0 then []
    else
      var last := rows[|rows| - 1];
      assert forall x :: x in rows <==> x in rows[..|rows| - 1] || x == last;
      OpenRows(rows[..|rows| - 1]) + (if last.position.isOpen then [last] else [])
  }

  /** The rows of one account, in order. */
  function RowsOf(rows: seq<JoinedRow>, id: string): seq<JoinedRow>
  {
    if |rows| == 0 then []
    else
      var last := rows[|rows| - 1];
      RowsOf(rows[..|rows| - 1], id) + (if last.account.id == id then [last] else [])
  }

  function Views(rows: seq<JoinedRow>): (r: seq<PositionView>)
    ensures |r| == |rows|
  {
    seq(|rows|, i requires 0 <= i < |rows| => View(rows[i].position))
  }

  function UnrealizedPnls(rows: seq<JoinedRow>): seq<real>
  {
    seq(|rows|, i requires 0 <= i < |rows| => rows[i].position.unrealizedPnl)
  }

  function Margins(rows: seq<JoinedRow>): seq<real>
  {
    seq(|rows|, i requires 0 <= i < |rows| => Margin(View(rows[i].position)))
  }

  function AccountIds(rows: seq<JoinedRow>): seq<string>
  {
    seq(|rows|, i requires 0 <= i < |rows| => rows[i].account.id)
  }

  function GroupIds(groups: seq<AccountPositions>): seq<string>
  {
    seq(|groups|, i requires 0 <= i < |groups| => groups[i].accountId)
  }

  /** `positionsByAccount.get(id)`: the position of the account's group. */
  function IndexOfAccount(groups: seq<AccountPositions>, id: string): (r: Option<nat>)
    ensures r.Some? ==> r.value < |groups| && groups[r.value].accountId == id
    ensures r.None? ==> forall k :: 0 <= k < |groups| ==> groups[k].accountId != id
  {
    if |groups| == 0 then None
    else if groups[|groups| - 1].accountId == id then Some(|groups| - 1)
    else IndexOfAccount(groups[..|groups| - 1], id)
  }

  /** The group an account starts with: no positions, the whole current
      balance as cash. */
  function NewGroup(a: AccountRow): AccountPositions
  {
    AccountPositions(a.id, a, [], 0.0, a.currentBalance)
  }

  /** Push the position, add its PnL, subtract its margin. */
  function AddPosition(g: AccountPositions, p: PositionRow): AccountPositions
  {
    var v := View(p);
    g.(positions := g.positions + [v], totalUnrealizedPnl := g.totalUnrealizedPnl + v.unrealizedPnl,
       availableCash := g.availableCash - Margin(v))
  }

  /** One iteration of the grouping loop. */
  function AddRow(groups: seq<AccountPositions>, r: JoinedRow): seq<AccountPositions>
  {
    match IndexOfAccount(groups, r.account.id)
    case None => groups + [AddPosition(NewGroup(r.account), r.position)]
    case Some(k) => groups[k := AddPosition(groups[k], r.position)]
  }

  /** The groups after the given rows. */
  function Group(rows: seq<JoinedRow>): seq<AccountPositions>
  {
    if |rows| == 0 then [] else AddRow(Group(rows[..|rows| - 1]), rows[|rows| - 1])
  }

  /** Push the position onto the group, add its PnL, subtract its margin. */
  method PushPosition(g: AccountPositions, p: PositionRow) returns (g': AccountPositions)
    ensures g' == AddPosition(g, p)
  {
    var v := View(p);
    g' := g.(positions := g.positions + [v]);
    g' := g'.(totalUnrealizedPnl := g'.totalUnrealizedPnl + v.unrealizedPnl);
    g' := g'.(availableCash := g'.availableCash - Margin(v));
  }

  /** The handler's loop over the open rows. */
  method GroupPositions(rows: seq<JoinedRow>) returns (result: seq<AccountPositions>)
    ensures result == Group(OpenRows(rows))
  {
    var open := OpenRows(rows);
    result := [];
    for i := 0 to |open|
      invariant result == Group(open[..i])
    {
      var row := open[i];
      assert open[..i + 1][..i] == open[..i];
      ghost var before := result;
      var idx := IndexOfAccount(result, row.account.id);
      if idx.None? {
        result := result + [NewGroup(row.account)];
        var g := PushPosition(result[|result| - 1], row.position);
        result := result[|result| - 1 := g];
        assert result == before + [AddPosition(NewGroup(row.account), row.position)];
      } else {
        var k := idx.value;
        var g := PushPosition(result[k], row.position);
        result := result[k := g];
      }
      assert result == AddRow(before, row);
    }
    assert open[..|open|] == open;
  }

  /** What each group holds after the rows seen so far. */
  predicate GroupMatches(g: AccountPositions, rows: seq<JoinedRow>)
  {
    var mine := RowsOf(rows, g.accountId);
    |mine| > 0 && g.account == mine[0].account &&
    g.positions == Views(mine) &&
    g.totalUnrealizedPnl == Sum(UnrealizedPnls(mine)) &&
    g.availableCash == g.account.currentBalance - Sum(Margins(mine))
  }

  predicate AllMatch(groups: seq<AccountPositions>, rows: seq<JoinedRow>)
  {
    forall k :: 0 <= k < |groups| ==> GroupMatches(groups[k], rows)
  }

  predicate Consistent(groups: seq<AccountPositions>, rows: seq<JoinedRow>)
  {
    GroupIds(groups) == Seqs.Distinct(AccountIds(rows)) && AllMatch(groups, rows)
  }

  lemma RowsOfAppend(rows: seq<JoinedRow>, r: JoinedRow, id: string)
    ensures RowsOf(rows + [r], id) == RowsOf(rows, id) + (if r.account.id == id then [r] else [])
  {
    assert (rows + [r])[..|rows|] == rows;
  }

  /** An account no row mentions has no rows. */
  lemma {:induction false} RowsOfAbsent(rows: seq<JoinedRow>, id: string)
    requires id !in AccountIds(rows)
    ensures RowsOf(rows, id) == []
  {
    if |rows| > 0 {
      var p := rows[..|rows| - 1];
      assert AccountIds(rows)[|rows| - 1] == rows[|rows| - 1].account.id;
      assert forall i :: 0 <= i < |p| ==> AccountIds(p)[i] == AccountIds(rows)[i];
      RowsOfAbsent(p, id);
    }
  }

  /** Adding row `r` to a group whose rows so far are `mine`. */
  lemma AddPositionMatches(g: AccountPositions, mine: seq<JoinedRow>, r: JoinedRow)
    requires |mine| > 0 && g.account == mine[0].account
    requires g.positions == Views(mine)
    requires g.totalUnrealizedPnl == Sum(UnrealizedPnls(mine))
    requires g.availableCash == g.account.currentBalance - Sum(Margins(mine))
    ensures var g' := AddPosition(g, r.position); var mine' := mine + [r];
      g'.account == mine'[0].account && g'.positions == Views(mine') &&
      g'.totalUnrealizedPnl == Sum(UnrealizedPnls(mine')) &&
      g'.availableCash == g'.account.currentBalance - Sum(Margins(mine'))
  {
    var mine' := mine + [r];
    assert Views(mine') == Views(mine) + [View(r.position)];
    assert UnrealizedPnls(mine') == UnrealizedPnls(mine) + [r.position.unrealizedPnl];
    assert Margins(mine') == Margins(mine) + [Margin(View(r.position))];
    SumAppend(UnrealizedPnls(mine), r.position.unrealizedPnl);
    SumAppend(Margins(mine), Margin(View(r.position)));
  }

  /** A new group for an unseen account matches its single row. */
  lemma NewGroupMatches(r: JoinedRow)
    ensures var g := AddPosition(NewGroup(r.account), r.position); var mine := [r];
      g.account == mine[0].account && g.positions == Views(mine) &&
      g.totalUnrealizedPnl == Sum(UnrealizedPnls(mine)) &&
      g.availableCash == g.account.currentBalance - Sum(Margins(mine))
  {
    var mine := [r];
    assert UnrealizedPnls(mine) == [] + [r.position.unrealizedPnl];
    assert Margins(mine) == [] + [Margin(View(r.position))];
    SumAppend([], r.position.unrealizedPnl);
    SumAppend([], Margin(View(r.position)));
  }

  lemma AccountIdsAppend(rows: seq<JoinedRow>, r: JoinedRow)
    ensures AccountIds(rows + [r]) == AccountIds(rows) + [r.account.id]
  {
  }

  /** A group that the new row does not belong to is unaffected. */
  lemma OtherGroupMatches(g: AccountPositions, rows: seq<JoinedRow>, r: JoinedRow)
    requires GroupMatches(g, rows) && g.accountId != r.account.id
    ensures GroupMatches(g, rows + [r])
  {
    RowsOfAppend(rows, r, g.accountId);
    assert RowsOf(rows + [r], g.accountId) == RowsOf(rows, g.accountId);
  }

  lemma NewGroupIds(groups: seq<AccountPositions>, rows: seq<JoinedRow>, r: JoinedRow, g: AccountPositions)
    requires GroupIds(groups) == Seqs.Distinct(AccountIds(rows))
    requires r.account.id !in GroupIds(groups) && g.accountId == r.account.id
    ensures GroupIds(groups + [g]) == Seqs.Distinct(AccountIds(rows + [r]))
  {
    AccountIdsAppend(rows, r);
    Seqs.DistinctAppend(AccountIds(rows), r.account.id);
    assert GroupIds(groups + [g]) == GroupIds(groups) + [g.accountId];
  }

  lemma NewGroupAllMatch(groups: seq<AccountPositions>, rows: seq<JoinedRow>, r: JoinedRow)
    requires AllMatch(groups, rows) && r.account.id !in AccountIds(rows)
    requires forall k :: 0 <= k < |groups| ==> groups[k].accountId != r.account.id
    ensures AllMatch(groups + [AddPosition(NewGroup(r.account), r.position)], rows + [r])
  {
    var groups' := groups + [AddPosition(NewGroup(r.account), r.position)];
    RowsOfAbsent(rows, r.account.id);
    RowsOfAppend(rows, r, r.account.id);
    NewGroupMatches(r);
    forall k | 0 <= k < |groups'| ensures GroupMatches(groups'[k], rows + [r]) {
      if k < |groups| {
        OtherGroupMatches(groups[k], rows, r);
      }
    }
  }

  /** A row of an account without a group opens a new group at the end. */
  lemma AddRowNewGroup(groups: seq<AccountPositions>, rows: seq<JoinedRow>, r: JoinedRow)
    requires Consistent(groups, rows) && IndexOfAccount(groups, r.account.id).None?
    ensures Consistent(AddRow(groups, r), rows + [r])
  {
    var id := r.account.id;
    var g := AddPosition(NewGroup(r.account), r.position);
    assert id !in GroupIds(groups) by {
      forall k | 0 <= k < |groups| ensures GroupIds(groups)[k] != id {}
    }
    NewGroupIds(groups, rows, r, g);
    NewGroupAllMatch(groups, rows, r);
  }

  lemma ExistingGroupIds(groups: seq<AccountPositions>, rows: seq<JoinedRow>, r: JoinedRow, j: nat, g: AccountPositions)
    requires GroupIds(groups) == Seqs.Distinct(AccountIds(rows))
    requires j < |groups| && groups[j].accountId == r.account.id && g.accountId == r.account.id
    ensures GroupIds(groups[j := g]) == Seqs.Distinct(AccountIds(rows + [r]))
  {
    assert r.account.id in GroupIds(groups) by { assert GroupIds(groups)[j] == r.account.id; }
    AccountIdsAppend(rows, r);
    Seqs.DistinctAppend(AccountIds(rows), r.account.id);
    assert GroupIds(groups[j := g]) == GroupIds(groups) by {
      forall k | 0 <= k < |groups| ensures GroupIds(groups[j := g])[k] == GroupIds(groups)[k] {}
    }
  }

  lemma ExistingGroupAllMatch(groups: seq<AccountPositions>, rows: seq<JoinedRow>, r: JoinedRow, j: nat)
    requires AllMatch(groups, rows) && j < |groups| && groups[j].accountId == r.account.id
    requires forall k :: 0 <= k < |groups| && k != j ==> groups[k].accountId != r.account.id
    ensures AllMatch(groups[j := AddPosition(groups[j], r.position)], rows + [r])
  {
    var groups' := groups[j := AddPosition(groups[j], r.position)];
    RowsOfAppend(rows, r, r.account.id);
    forall k | 0 <= k < |groups'| ensures GroupMatches(groups'[k], rows + [r]) {
      if k == j {
        assert GroupMatches(groups[j], rows);
        AddPositionMatches(groups[j], RowsOf(rows, r.account.id), r);
      } else {
        OtherGroupMatches(groups[k], rows, r);
      }
    }
  }

  /** A row of an account with group `j` extends that group only. */
  lemma AddRowExistingGroup(groups: seq<AccountPositions>, rows: seq<JoinedRow>, r: JoinedRow, j: nat)
    requires Consistent(groups, rows) && IndexOfAccount(groups, r.account.id) == Some(j)
    ensures Consistent(AddRow(groups, r), rows + [r])
  {
    var g := AddPosition(groups[j], r.position);
    ExistingGroupIds(groups, rows, r, j, g);
    forall k | 0 <= k < |groups| && k != j ensures groups[k].accountId != r.account.id {
      assert GroupIds(groups)[k] != GroupIds(groups)[j];
    }
    ExistingGroupAllMatch(groups, rows, r, j);
  }

  /** One loop iteration keeps the groups consistent with the rows seen. */
  lemma AddRowConsistent(groups: seq<AccountPositions>, rows: seq<JoinedRow>, r: JoinedRow)
    requires Consistent(groups, rows)
    ensures Consistent(AddRow(groups, r), rows + [r])
  {
    match IndexOfAccount(groups, r.account.id)
    case None => AddRowNewGroup(groups, rows, r);
    case Some(j) => AddRowExistingGroup(groups, rows, r, j);
  }

  lemma {:induction false} GroupConsistent(rows: seq<JoinedRow>)
    ensures Consistent(Group(rows), rows)
  {
    if |rows| > 0 {
      var p := rows[..|rows| - 1];
      var r := rows[|rows| - 1];
      assert p + [r] == rows;
      assert Group(rows) == AddRow(Group(p), r);
      GroupConsistent(p);
      AddRowConsistent(Group(p), p, r);
    }
  }

  /** The view lists each account that has an open position once, in
      first-seen order; each group holds exactly that account's open
      positions in query order, their summed unrealized PnL, and the
      account's balance minus their summed margin. */
  lemma GroupPositionsSpec(rows: seq<JoinedRow>)
    ensures var open := OpenRows(rows); var gs := Group(open);
      GroupIds(gs) == Seqs.Distinct(AccountIds(open)) &&
      (forall k :: 0 <= k < |gs| ==>
        var mine := RowsOf(open, gs[k].accountId);
        gs[k].positions == Views(mine) &&
        gs[k].totalUnrealizedPnl == Sum(UnrealizedPnls(mine)) &&
        gs[k].availableCash == gs[k].account.currentBalance - Sum(Margins(mine))) &&
      (forall k, i :: 0 <= k < |gs| && 0 <= i < |gs[k].positions| ==> gs[k].positions[i].isOpen)
  {
    var open := OpenRows(rows);
    var gs := Group(open);
    GroupConsistent(open);
    forall k, i | 0 <= k < |gs| && 0 <= i < |gs[k].positions| ensures gs[k].positions[i].isOpen {
      RowsOfOpen(open, gs[k].accountId);
      assert GroupMatches(gs[k], open);
    }
  }

  /** The rows of an account among open rows are open. */
  lemma {:induction false} RowsOfOpen(rows: seq<JoinedRow>, id: string)
    requires forall i :: 0 <= i < |rows| ==> rows[i].position.isOpen
    ensures forall i :: 0 <= i < |RowsOf(rows, id)| ==> RowsOf(rows, id)[i].position.isOpen
  {
    if |rows| > 0 {
      var p := rows[..|rows| - 1];
      assert forall i :: 0 <= i < |p| ==> p[i] == rows[i];
      RowsOfOpen(p, id);
    }
  }
}
